/**
 * HtmlEntitiesDecoder.decodeBasic: literal replacement of the
 * typographic and markup entities news descriptions carry.
 */
module HtmlEntitiesDecoder {
  import opened JavaLang
  import opened Strings

  /** Replaces every occurrence of each entity in turn, the ellipsis first, `&gt;` last. */
  function DecodeBasic(text: Option<string>): (r: string)
    ensures text.None? ==> r == ""
    ensures text.Some? ==> |r| <= |text.value|
    ensures text.Some? && '&' !in text.value ==> r == text.value
  {
    if text.None? then ""
    else
      var s := text.value;
      var s1 := Replace(s, "&#8230;", "...");
      var s2 := Replace(s1, "&#8220;", "\"");
      var s3 := Replace(s2, "&#8221;", "\"");
      var s4 := Replace(s3, "&#8216;", "'");
      var s5 := Replace(s4, "&#8217;", "'");
      var s6 := Replace(s5, "&amp;", "&");
      var s7 := Replace(s6, "&lt;", "<");
      Replace(s7, "&gt;", ">")
  }

  /** The entities decodeBasic replaces, in the order it replaces them. */
  const BASIC_ENTITIES: seq<(string, string)> := [
    ("&#8230;", "..."), ("&#8220;", "\""), ("&#8221;", "\""), ("&#8216;", "'"),
    ("&#8217;", "'"), ("&amp;", "&"), ("&lt;", "<"), ("&gt;", ">")
  ]

  /** The chain of replacements is the table applied entry by entry. */
  lemma DecodeBasicByTable(s: string)
    ensures ShrinkingFrom(BASIC_ENTITIES, '&') && DecodeBasic(Some(s)) == ReplaceEach(s, BASIC_ENTITIES, '&')
  {
    BasicEntitiesShrink();
  }

  lemma BasicEntitiesShrink()
    ensures ShrinkingFrom(BASIC_ENTITIES, '&')
  {
  }

  /** The table is a table of distinct entities, and only "&amp;" decodes to a text holding an '&'. */
  lemma BasicEntitiesAreEntities()
    ensures EntityTable(BASIC_ENTITIES, '&')
    ensures forall k :: 0 <= k < |BASIC_ENTITIES| && k != 5 ==> '&' !in BASIC_ENTITIES[k].1
    ensures BASIC_ENTITIES[5].1 == "&"
  {
    BasicEntitiesShrink();
    BasicEntitiesWellFormed();
    BasicEntitiesDistinct();
    BasicReplacements();
  }

  lemma BasicEntitiesDistinct()
    ensures forall j, k :: 0 <= j < k < |BASIC_ENTITIES| ==> BASIC_ENTITIES[j].0 != BASIC_ENTITIES[k].0
  {
  }

  lemma BasicReplacements()
    ensures forall k :: 0 <= k < |BASIC_ENTITIES| && k != 5 ==> '&' !in BASIC_ENTITIES[k].1
    ensures BASIC_ENTITIES[5].1 == "&"
  {
  }

  lemma BasicEntitiesWellFormed()
    ensures forall k :: 0 <= k < |BASIC_ENTITIES| ==> IsEntity(BASIC_ENTITIES[k].0, '&')
  {
    forall k | 0 <= k < |BASIC_ENTITIES| ensures IsEntity(BASIC_ENTITIES[k].0, '&') {
      if k == 0 { assert IsEntity("&#8230;", '&'); }
    }
  }

  /**
   * Each entity of the table, between texts without an '&', decodes to its
   * character; "&amp;" only at the end, since the "&" it leaves is read
   * again by the replacements after it.
   */
  lemma EntityDecodedBasic(k: nat, a: string, b: string)
    requires k < |BASIC_ENTITIES|
    requires '&' !in a && '&' !in b
    requires k != 5 || b == []
    ensures DecodeBasic(Some(a + BASIC_ENTITIES[k].0 + b)) == a + BASIC_ENTITIES[k].1 + b
  {
    DecodeBasicByTable(a + BASIC_ENTITIES[k].0 + b);
    BasicEntitiesAreEntities();
    EntityDecoded(BASIC_ENTITIES, '&', k, a, b);
  }

  /** `&amp;` is decoded before `&lt;`, so an escaped entity is decoded twice. */
  lemma AmpDecodedBeforeLt()
    ensures DecodeBasic(Some("&amp;lt;")) == "<"
  {
    var s := "&amp;lt;";
    var s5 := Replace(Replace(Replace(Replace(Replace(s, "&#8230;", "..."), "&#8220;", "\""), "&#8221;", "\""), "&#8216;", "'"), "&#8217;", "'");
    TypographicEntitiesAbsent(s);
    AmpThenLt();
    assert DecodeBasic(Some(s)) == Replace(Replace(Replace(s5, "&amp;", "&"), "&lt;", "<"), "&gt;", ">");
  }

  /** None of the typographic entities occurs in "&amp;lt;": their replacements leave it as it is. */
  lemma TypographicEntitiesAbsent(s: string)
    requires s == "&amp;lt;"
    ensures Replace(Replace(Replace(Replace(Replace(s, "&#8230;", "..."), "&#8220;", "\""), "&#8221;", "\""), "&#8216;", "'"), "&#8217;", "'") == s
  {
    KeepsAmpersandText(s, "&#8230;", "...");
    KeepsAmpersandText(s, "&#8220;", "\"");
    KeepsAmpersandText(s, "&#8221;", "\"");
    KeepsAmpersandText(s, "&#8216;", "'");
    KeepsAmpersandText(s, "&#8217;", "'");
  }

  /** Decoding `&amp;` in "&amp;lt;" leaves "&lt;", which then decodes to "<", which `&gt;` leaves alone. */
  lemma AmpThenLt()
    ensures Replace(Replace(Replace("&amp;lt;", "&amp;", "&"), "&lt;", "<"), "&gt;", ">") == "<"
  {
    var s := "&amp;lt;";
    assert s[..5] == "&amp;" && s[5..] == "lt;";
    assert Replace(s, "&amp;", "&") == "&lt;";
    assert Replace("&lt;", "&lt;", "<") == "<";
  }

  /** An entity that differs from the text's start in its second character, and whose first character occurs nowhere after the start, leaves it unchanged. */
  lemma KeepsAmpersandText(s: string, t: string, rep: string)
    requires 2 <= |t| <= |s| && s[1] != t[1] && t[0] !in s[1..]
    ensures Replace(s, t, rep) == s
  {
    assert s[..|t|][1] == s[1];
    assert s == [s[0]] + s[1..];
  }
}
