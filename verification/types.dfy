/** The shared vocabulary of the application form: the ten roles, questions,
    answers and the next-question response shape (src/types/index.ts). */
module Types {
  import opened Wrappers
  import Strings

  datatype Role =
    | FrontendEngineer
    | ProductDesigner
    | BackendEngineer
    | FullstackEngineer
    | DataScientist
    | DevopsEngineer
    | ProductManager
    | UiUxDesigner
    | MobileDeveloper
    | QaEngineer

  /** The identifier a role travels under in requests and stored rows. */
  function RoleId(r: Role): string {
    match r
    case FrontendEngineer => "frontend-engineer"
    case ProductDesigner => "product-designer"
    case BackendEngineer => "backend-engineer"
    case FullstackEngineer => "fullstack-engineer"
    case DataScientist => "data-scientist"
    case DevopsEngineer => "devops-engineer"
    case ProductManager => "product-manager"
    case UiUxDesigner => "ui-ux-designer"
    case MobileDeveloper => "mobile-developer"
    case QaEngineer => "qa-engineer"
  }

  /** The `ROLES` constant, in its declared order. */
  const Roles: seq<Role> := [
    FrontendEngineer, ProductDesigner, BackendEngineer, FullstackEngineer, DataScientist,
    DevopsEngineer, ProductManager, UiUxDesigner, MobileDeveloper, QaEngineer
  ]

  const RoleIds: seq<string> := [
    "frontend-engineer", "product-designer", "backend-engineer", "fullstack-engineer",
    "data-scientist", "devops-engineer", "product-manager", "ui-ux-designer",
    "mobile-developer", "qa-engineer"
  ]

  /** The `ROLE_LABELS` record. */
  function RoleLabel(r: Role): string {
    match r
    case FrontendEngineer => "Frontend Engineer"
    case ProductDesigner => "Product Designer"
    case BackendEngineer => "Backend Engineer"
    case FullstackEngineer => "Full Stack Engineer"
    case DataScientist => "Data Scientist"
    case DevopsEngineer => "DevOps Engineer"
    case ProductManager => "Product Manager"
    case UiUxDesigner => "UI/UX Designer"
    case MobileDeveloper => "Mobile Developer"
    case QaEngineer => "QA Engineer"
  }

  /** `ROLES.includes(s)`, returning the role it names. */
  function ParseRole(s: string): (r: Option<Role>)
    ensures r.Some? <==> s in RoleIds
    ensures r.Some? ==> RoleId(r.value) == s
  {
    RolesWellFormed();
    RoleAmong(Roles, s)
  }

  /** The first role of `rs` whose identifier is `s`. */
  function RoleAmong(rs: seq<Role>, s: string): (r: Option<Role>)
    ensures r.Some? ==> r.value in rs && RoleId(r.value) == s
    ensures r.None? <==> forall i :: 0 <= i < |rs| ==> RoleId(rs[i]) != s
  {
    if |rs| == 0 then None
    else if RoleId(rs[0]) == s then Some(rs[0])
    else RoleAmong(rs[1..], s)
  }

  /** `ROLES` lists ten pairwise-distinct identifiers, the i-th being the
      identifier of the i-th role, and every role is listed exactly once. */
  lemma RolesWellFormed()
    ensures |Roles| == 10 && |RoleIds| == 10
    ensures forall i :: 0 <= i < 10 ==> RoleIds[i] == RoleId(Roles[i])
    ensures forall i, j :: 0 <= i < j < 10 ==> RoleIds[i] != RoleIds[j]
    ensures forall i, j :: 0 <= i < j < 10 ==> Roles[i] != Roles[j]
    ensures forall r: Role :: r in Roles
  {
    forall i, j | 0 <= i < j < 10 ensures RoleIds[i] != RoleIds[j] {
      // no two identifiers share both their first character and their length
      assert RoleIds[i][0] != RoleIds[j][0] || |RoleIds[i]| != |RoleIds[j]|;
    }
    forall r: Role ensures r in Roles {
      match r
      case FrontendEngineer => assert r == Roles[0];
      case ProductDesigner => assert r == Roles[1];
      case BackendEngineer => assert r == Roles[2];
      case FullstackEngineer => assert r == Roles[3];
      case DataScientist => assert r == Roles[4];
      case DevopsEngineer => assert r == Roles[5];
      case ProductManager => assert r == Roles[6];
      case UiUxDesigner => assert r == Roles[7];
      case MobileDeveloper => assert r == Roles[8];
      case QaEngineer => assert r == Roles[9];
    }
  }

  /** Distinct roles have distinct identifiers. */
  lemma RoleIdInjective(a: Role, b: Role)
    ensures a != b ==> RoleId(a) != RoleId(b)
  {
    if a != b {
      var i, j := RoleIndex(a), RoleIndex(b);
      RolesWellFormed();
      if i < j {
        assert RoleIds[i] != RoleIds[j];
      } else {
        assert RoleIds[j] != RoleIds[i];
      }
    }
  }

  /** Where a role sits in `ROLES`. */
  function RoleIndex(r: Role): (i: nat)
    ensures i < 10 && Roles[i] == r
  {
    match r
    case FrontendEngineer => 0
    case ProductDesigner => 1
    case BackendEngineer => 2
    case FullstackEngineer => 3
    case DataScientist => 4
    case DevopsEngineer => 5
    case ProductManager => 6
    case UiUxDesigner => 7
    case MobileDeveloper => 8
    case QaEngineer => 9
  }

  /** Parsing an identifier and printing the role back is the identity in
      both directions. */
  lemma ParseRoleRoundTrip(r: Role, s: string)
    ensures ParseRole(RoleId(r)) == Some(r)
    ensures ParseRole(s).Some? ==> RoleId(ParseRole(s).value) == s
  {
    RolesWellFormed();
    assert RoleId(r) in RoleIds;
    RoleIdInjective(r, ParseRole(RoleId(r)).value);
  }

  /** Every role has a label and the ten labels are pairwise distinct. */
  lemma RoleLabelsDistinct(a: Role, b: Role)
    ensures |RoleLabel(a)| > 0
    ensures a != b ==> RoleLabel(a) != RoleLabel(b)
  {
    if a != b {
      // no two labels share both their first character and their length
      assert RoleLabel(a)[0] != RoleLabel(b)[0] || |RoleLabel(a)| != |RoleLabel(b)|;
    }
  }

  datatype QuestionType = Text | Select | Textarea | Number

  /** A question as issued to the client (its `label` is called `prompt`
      here, `label` being a Dafny keyword); `options` and `required` are
      optional properties. */
  datatype Question = Question(
    key: string,
    prompt: string,   // the source's `label`
    qtype: QuestionType,
    options: Option<seq<string>>,
    required: Option<bool>)

  /** `question.required` used as a condition: only an explicit `true` counts. */
  predicate IsRequired(q: Question) {
    q.required == Some(true)
  }

  /** An answer value is `string | number`; numbers are integers here. */
  datatype Value = Str(s: string) | Num(n: int)

  /** JavaScript falsiness of an answer value: `""` or `0`. */
  predicate IsFalsy(v: Value) {
    v == Str("") || v == Num(0)
  }

  /** `String(value)`. */
  function ValueText(v: Value): string {
    match v
    case Str(s) => s
    case Num(n) => Strings.IntToString(n)
  }

  datatype Answer = Answer(key: string, value: Value)

  /** `NextQuestionResponse`: every property is optional. */
  datatype NextQuestionResponse = NextQuestionResponse(
    question: Option<Question>,
    completed: Option<bool>,
    message: Option<string>)
}
