/** IssueCategory: the categories an issue is filed under, each with a code and a display name. */
module IssueCategory {
  import opened JavaLang

  datatype Category =
    | ECONOMY | FOREIGN_POLICY | POLITICS | SOCIAL | EDUCATION | ENVIRONMENT
    | HEALTH | DEFENSE | CULTURE | TECHNOLOGY | WELFARE | LABOR | HOUSING
    | TRANSPORT | SECURITY | ADMIN | JUSTICE | OTHER
  {
    function Code(): string {
      match this
      case ECONOMY => "ECONOMY"
      case FOREIGN_POLICY => "FOREIGN_POLICY"
      case POLITICS => "POLITICS"
      case SOCIAL => "SOCIAL"
      case EDUCATION => "EDUCATION"
      case ENVIRONMENT => "ENVIRONMENT"
      case HEALTH => "HEALTH"
      case DEFENSE => "DEFENSE"
      case CULTURE => "CULTURE"
      case TECHNOLOGY => "TECHNOLOGY"
      case WELFARE => "WELFARE"
      case LABOR => "LABOR"
      case HOUSING => "HOUSING"
      case TRANSPORT => "TRANSPORT"
      case SECURITY => "SECURITY"
      case ADMIN => "ADMIN"
      case JUSTICE => "JUSTICE"
      case OTHER => "OTHER"
    }

    function DisplayName(): string {
      match this
      case ECONOMY => "경제"
      case FOREIGN_POLICY => "외교"
      case POLITICS => "정치"
      case SOCIAL => "사회"
      case EDUCATION => "교육"
      case ENVIRONMENT => "환경"
      case HEALTH => "보건/의료"
      case DEFENSE => "국방"
      case CULTURE => "문화"
      case TECHNOLOGY => "과학기술"
      case WELFARE => "복지"
      case LABOR => "노동"
      case HOUSING => "주택"
      case TRANSPORT => "교통"
      case SECURITY => "안보"
      case ADMIN => "행정"
      case JUSTICE => "법무"
      case OTHER => "기타"
    }
  }

  /** IssueCategory.values(), in declaration order. */
  const VALUES: seq<Category> := [
    ECONOMY, FOREIGN_POLICY, POLITICS, SOCIAL, EDUCATION, ENVIRONMENT,
    HEALTH, DEFENSE, CULTURE, TECHNOLOGY, WELFARE, LABOR, HOUSING,
    TRANSPORT, SECURITY, ADMIN, JUSTICE, OTHER]

  /** The first value at index i or later whose code equals `code`; OTHER when there is none. */
  function FirstWithCode(i: nat, code: Option<string>): (c: Category)
    requires i <= |VALUES|
    ensures c == OTHER || code == Some(c.Code())
    ensures (exists j :: i <= j < |VALUES| && code == Some(VALUES[j].Code())) ==> code == Some(c.Code())
    decreases |VALUES| - i
  {
    if i == |VALUES| then OTHER
    else if code == Some(VALUES[i].Code()) then VALUES[i]
    else FirstWithCode(i + 1, code)
  }

  /** fromCode as a function: the category with that code, or OTHER; a null code matches none. */
  function CategoryOf(code: Option<string>): (c: Category)
    ensures c != OTHER ==> code == Some(c.Code())
    ensures code.None? ==> c == OTHER
  {
    FirstWithCode(0, code)
  }

  /** Where each category sits in VALUES. */
  function IndexOf(c: Category): (k: nat)
    ensures k < |VALUES| && VALUES[k] == c
  {
    match c
    case ECONOMY => 0
    case FOREIGN_POLICY => 1
    case POLITICS => 2
    case SOCIAL => 3
    case EDUCATION => 4
    case ENVIRONMENT => 5
    case HEALTH => 6
    case DEFENSE => 7
    case CULTURE => 8
    case TECHNOLOGY => 9
    case WELFARE => 10
    case LABOR => 11
    case HOUSING => 12
    case TRANSPORT => 13
    case SECURITY => 14
    case ADMIN => 15
    case JUSTICE => 16
    case OTHER => 17
  }

  /** The category a code names, read off by a switch. */
  function Named(code: string): Category {
    match code
    case "ECONOMY" => ECONOMY
    case "FOREIGN_POLICY" => FOREIGN_POLICY
    case "POLITICS" => POLITICS
    case "SOCIAL" => SOCIAL
    case "EDUCATION" => EDUCATION
    case "ENVIRONMENT" => ENVIRONMENT
    case "HEALTH" => HEALTH
    case "DEFENSE" => DEFENSE
    case "CULTURE" => CULTURE
    case "TECHNOLOGY" => TECHNOLOGY
    case "WELFARE" => WELFARE
    case "LABOR" => LABOR
    case "HOUSING" => HOUSING
    case "TRANSPORT" => TRANSPORT
    case "SECURITY" => SECURITY
    case "ADMIN" => ADMIN
    case "JUSTICE" => JUSTICE
    case _ => OTHER
  }

  lemma NamedCode(c: Category)
    ensures Named(c.Code()) == c
  {
  }

  /** No two categories share a code. */
  lemma CodeInjective(a: Category, b: Category)
    requires a.Code() == b.Code()
    ensures a == b
  {
    NamedCode(a);
    NamedCode(b);
  }

  /** Every category is found from its own code. */
  lemma CodeRoundTrip(c: Category)
    ensures CategoryOf(Some(c.Code())) == c
  {
    var k := IndexOf(c);
    var r := CategoryOf(Some(c.Code()));
    assert Some(c.Code()) == Some(VALUES[k].Code());
    CodeInjective(r, c);
  }

  /** A code that is not one of the eighteen gives OTHER. */
  lemma UnknownCodeIsOther(code: Option<string>)
    requires forall c: Category :: code != Some(c.Code())
    ensures CategoryOf(code) == OTHER
  {
  }

  /** A text is some category's code exactly when the lookup finds a category other than OTHER, or it is "OTHER" itself. */
  lemma IsSomeCode(code: string)
    ensures (exists c: Category :: code == c.Code()) <==> (CategoryOf(Some(code)) != OTHER || code == "OTHER")
  {
    var r := CategoryOf(Some(code));
    if r != OTHER {
      assert code == r.Code();
    } else if code == "OTHER" {
      assert code == OTHER.Code();
    } else {
      forall c: Category ensures code != c.Code() {
        if code == c.Code() {
          CodeRoundTrip(c);
        }
      }
    }
  }

  /** fromCode: a linear search over the values. */
  method FromCode(code: Option<string>) returns (c: Category)
    ensures c == CategoryOf(code)
  {
    var i := 0;
    while i < |VALUES|
      invariant 0 <= i <= |VALUES|
      invariant FirstWithCode(i, code) == CategoryOf(code)
    {
      if code == Some(VALUES[i].Code()) {
        return VALUES[i];
      }
      i := i + 1;
    }
    return OTHER;
  }
}
