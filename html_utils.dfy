/**
 * HtmlUtils: stripping markup from the text the open APIs return, and
 * cutting descriptions down to a maximum length.
 */
module HtmlUtils {
  import opened JavaLang
  import opened Strings

  /** Index of the first '>' at or after i, or |s| when there is none. */
  function CloseIndex(s: string, i: nat): (k: nat)
    requires i <= |s|
    ensures i <= k <= |s|
    ensures k < |s| ==> s[k] == '>'
    ensures forall j :: i <= j < k ==> s[j] != '>'
    decreases |s| - i
  {
    if i == |s| || s[i] == '>' then i else CloseIndex(s, i + 1)
  }

  /** No '<' in the text is followed, anywhere later, by a '>'. */
  predicate NoTag(s: string) {
    forall i, j :: 0 <= i < j < |s| && s[i] == '<' ==> s[j] != '>'
  }

  /**
   * `replaceAll("<[^>]*>", "")`: from each '<' that has a '>' somewhere
   * after it, everything up to and including the first such '>' is removed.
   */
  function StripTags(s: string): (r: string)
    ensures |r| <= |s|
    ensures forall c :: c in r ==> c in s
    ensures '<' !in s ==> r == s
    ensures NoTag(r)
    decreases |s|
  {
    if s == [] then []
    else
      var k := CloseIndex(s, 1);
      if s[0] == '<' && k < |s| then
        var r := StripTags(s[k + 1..]);
        assert forall c :: c in s[k + 1..] ==> c in s;
        r
      else
        var t := StripTags(s[1..]);
        assert forall c :: c in s[1..] ==> c in s;
        assert s[0] == '<' ==> '>' !in s[1..] by {
          if s[0] == '<' {
            forall c | c in s[1..] ensures c != '>' {
              var j :| 0 <= j < |s[1..]| && s[1..][j] == c;
              assert s[j + 1] == c;
            }
          }
        }
        var r := [s[0]] + t;
        assert forall j :: 1 <= j < |r| ==> r[j] == t[j - 1];
        assert forall j :: 1 <= j < |r| ==> r[j] in t;
        r
  }

  /** Text before the first '<' comes through the tag pass unchanged. */
  lemma {:induction false} StripTagsPlainPrefix(a: string, rest: string)
    requires '<' !in a
    ensures StripTags(a + rest) == a + StripTags(rest)
    decreases |a|
  {
    if a == [] {
      assert a + rest == rest;
    } else {
      var s := a + rest;
      calc {
        StripTags(s);
        { assert s[0] == a[0] != '<';
          assert s[1..] == a[1..] + rest; }
        [a[0]] + StripTags(a[1..] + rest);
        { StripTagsPlainPrefix(a[1..], rest); }
        [a[0]] + (a[1..] + StripTags(rest));
        { assert a == [a[0]] + a[1..]; }
        a + StripTags(rest);
      }
    }
  }

  /** A '<' closed by the next '>' is removed together with everything between them. */
  lemma StripTagsDropsTag(m: string, b: string)
    requires '>' !in m
    ensures StripTags(['<'] + m + ['>'] + b) == StripTags(b)
  {
    var s := ['<'] + m + ['>'] + b;
    var k := CloseIndex(s, 1);
    assert s[|m| + 1] == '>';
    assert k <= |m| + 1;
    assert s[k + 1..] == b;
  }

  /** The entity replacements, in the order they are applied. */
  const ENTITIES: seq<(string, string)> := [
    ("&quot;", "\""), ("&amp;", "&"), ("&lt;", "<"), ("&gt;", ">"),
    ("&nbsp;", " "), ("&apos;", "'"), ("&#39;", "'"), ("&#x27;", "'"),
    ("&#x2F;", "/"), ("&#60;", "<"), ("&#62;", ">")
  ]

  lemma EntitiesShrink()
    ensures ShrinkingFrom(ENTITIES, '&')
  {
  }

  /** HtmlUtils.removeHtmlTags: tags removed, entities decoded, then trimmed. */
  function RemoveHtmlTags(html: Option<string>): (r: string)
    ensures !IsPresent(html) ==> r == ""
    ensures r == [] || (!IsTrimSpace(r[0]) && !IsTrimSpace(r[|r| - 1]))
    ensures html.Some? ==> |r| <= |html.value|
    ensures html.Some? && '<' !in html.value && '&' !in html.value ==> r == Trim(html.value)
  {
    if !IsPresent(html) then ""
    else
      EntitiesShrink();
      Trim(ReplaceEach(StripTags(html.value), ENTITIES, '&'))
  }

  /** The entity table is a table of distinct entities, none holding a '<'. */
  lemma EntitiesAreEntities()
    ensures EntityTable(ENTITIES, '&')
    ensures forall k :: 0 <= k < |ENTITIES| ==> '<' !in ENTITIES[k].0
  {
    EntitiesShrink();
    EntitiesWellFormed();
    EntitiesDistinct();
    EntitiesWithoutTagOpen();
  }

  lemma EntitiesWellFormed()
    ensures forall k :: 0 <= k < |ENTITIES| ==> IsEntity(ENTITIES[k].0, '&')
  {
    forall k | 0 <= k < |ENTITIES| ensures IsEntity(ENTITIES[k].0, '&') {
      if k == 0 { assert IsEntity("&quot;", '&'); }
    }
  }

  lemma EntitiesDistinct()
    ensures forall j, k :: 0 <= j < k < |ENTITIES| ==> ENTITIES[j].0 != ENTITIES[k].0
  {
  }

  lemma EntitiesWithoutTagOpen()
    ensures forall k :: 0 <= k < |ENTITIES| ==> '<' !in ENTITIES[k].0
  {
  }

  /** A tag between texts without markup or entities is removed, the rest trimmed. */
  lemma TagRemoved(a: string, m: string, b: string)
    requires '<' !in a && '&' !in a && '<' !in b && '&' !in b && '>' !in m
    ensures RemoveHtmlTags(Some(a + ['<'] + m + ['>'] + b)) == Trim(a + b)
  {
    var x := a + ['<'] + m + ['>'] + b;
    assert StripTags(x) == a + b by {
      assert x == a + (['<'] + m + ['>'] + b);
      StripTagsPlainPrefix(a, ['<'] + m + ['>'] + b);
      StripTagsDropsTag(m, b);
    }
    assert ReplaceEach(a + b, ENTITIES, '&') == a + b by {
      EntitiesShrink();
    }
    assert IsPresent(Some(x)) by {
      assert |x| > |a|;
    }
  }

  /**
   * Each listed entity, between texts without markup or entities, becomes
   * its character; "&amp;" only at the end, since the "&" it leaves is read
   * again by the replacements after it.
   */
  lemma EntityReplaced(k: nat, a: string, b: string)
    requires k < |ENTITIES|
    requires '<' !in a && '&' !in a && '<' !in b && '&' !in b
    requires k != 1 || b == []
    ensures RemoveHtmlTags(Some(a + ENTITIES[k].0 + b)) == Trim(a + ENTITIES[k].1 + b)
  {
    var e := ENTITIES[k].0;
    var d := ENTITIES[k].1;
    var x := a + e + b;
    EntitiesAreEntities();
    assert StripTags(x) == x by {
      assert '<' !in e;
    }
    assert ReplaceEach(x, ENTITIES, '&') == a + d + b by {
      EntitiesReplacements();
      EntityDecoded(ENTITIES, '&', k, a, b);
    }
    assert IsPresent(Some(x)) by {
      assert |e| >= 2;
    }
  }

  /** Only "&amp;" decodes to a text holding an '&'. */
  lemma EntitiesReplacements()
    ensures ENTITIES[1].1 == "&"
    ensures forall k :: 0 <= k < |ENTITIES| && k != 1 ==> '&' !in ENTITIES[k].1
  {
  }

  /**
   * HtmlUtils.truncate: a text longer than maxLength keeps its first
   * maxLength-3 characters followed by "..."; substring throws when
   * maxLength is below 3.
   */
  function Truncate(text: Option<string>, maxLength: int): (r: Result<Option<string>>)
    ensures text.None? ==> r == Ok(None)
    ensures text.Some? && |text.value| <= maxLength ==> r == Ok(text)
    ensures text.Some? && |text.value| > maxLength && maxLength < 3 ==> r == Thrown(IndexOutOfBounds)
    ensures text.Some? && |text.value| > maxLength >= 3 ==>
      r.Ok? && r.value.Some? && |r.value.value| == maxLength
      && r.value.value[..maxLength - 3] == text.value[..maxLength - 3]
      && EndsWith(r.value.value, "...")
  {
    if text.None? || |text.value| <= maxLength then Ok(text)
    else if maxLength - 3 < 0 then Thrown(IndexOutOfBounds)
    else Ok(Some(text.value[..maxLength - 3] + "..."))
  }

  /** Truncating a truncated text changes nothing. */
  lemma TruncateIdempotent(text: Option<string>, maxLength: int)
    requires Truncate(text, maxLength).Ok?
    ensures Truncate(Truncate(text, maxLength).value, maxLength) == Truncate(text, maxLength)
  {
  }
}
