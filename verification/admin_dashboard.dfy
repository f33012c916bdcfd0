/** The dashboard's own logic (src/components/admin/AdminDashboard.tsx): the
    list filter, the filters handed to the export, and the session record
    changed by logging in, loading, exporting and logging out. Service
    outcomes are parameters. */
module AdminDashboard {
  import opened Wrappers
  import opened Types
  import opened AdminTypes
  import Strings
  import AdminExport
  import AdminAnalytics

  // ----- The list filter -----

  /** The search box and the two drop-downs (`all` selects everything). */
  datatype Filters = Filters(search: string, role: string, status: string)

  const All := "all"

  /** Some answer's value, as text and lower-cased, includes the lower-cased
      term; an empty term matches everything. Keys and role are not looked
      at. */
  predicate MatchesSearch(app: AdminApplication, term: string) {
    term == "" ||
    exists j :: 0 <= j < |app.answers| &&
      Strings.Contains(Strings.ToLower(ValueText(app.answers[j].value)), Strings.ToLower(term))
  }

  predicate MatchesRole(app: AdminApplication, role: string) {
    role == All || app.role == role
  }

  /** A missing status counts as `pending`. */
  predicate MatchesStatus(app: AdminApplication, status: string) {
    status == All || StatusOrPending(app) == status
  }

  predicate Matches(app: AdminApplication, f: Filters) {
    MatchesSearch(app, f.search) && MatchesRole(app, f.role) && MatchesStatus(app, f.status)
  }

  /** The positions, from `from` on, of the applications that pass, in
      increasing order. */
  function Kept(apps: seq<AdminApplication>, f: Filters, from: nat): (ks: seq<nat>)
    requires from <= |apps|
    ensures forall k :: 0 <= k < |ks| ==> from <= ks[k] < |apps|
    ensures forall k, l :: 0 <= k < l < |ks| ==> ks[k] < ks[l]
    ensures forall i :: from <= i < |apps| ==> (i in ks <==> Matches(apps[i], f))
    decreases |apps| - from
  {
    if from == |apps| then []
    else (if Matches(apps[from], f) then [from] else []) + Kept(apps, f, from + 1)
  }

  /** `filteredApplications`: the passing applications in list order, an
      order-preserving subsequence of the list. */
  function Filtered(apps: seq<AdminApplication>, f: Filters): (r: seq<AdminApplication>)
    ensures var ks := Kept(apps, f, 0);
            && |r| == |ks|
            && forall k :: 0 <= k < |r| ==> r[k] == apps[ks[k]]
  {
    var ks := Kept(apps, f, 0);
    seq(|ks|, k requires 0 <= k < |ks| => apps[ks[k]])
  }

  /** `r` is `apps` read at the strictly increasing positions `ks`. */
  predicate Picks(r: seq<AdminApplication>, apps: seq<AdminApplication>, ks: seq<nat>) {
    && |ks| == |r|
    && (forall k :: 0 <= k < |ks| ==> ks[k] < |apps| && r[k] == apps[ks[k]])
    && (forall k, l :: 0 <= k < l < |ks| ==> ks[k] < ks[l])
  }

  /** The filtered list is exactly the passing applications, each taken
      from a strictly later position than the one before. */
  lemma FilteredIsSubsequence(apps: seq<AdminApplication>, f: Filters)
    ensures forall a :: a in Filtered(apps, f) <==> a in apps && Matches(a, f)
    ensures exists ks :: Picks(Filtered(apps, f), apps, ks)
  {
    FilteredMembers(apps, f);
    assert Picks(Filtered(apps, f), apps, Kept(apps, f, 0));
  }

  lemma FilteredMembers(apps: seq<AdminApplication>, f: Filters)
    ensures forall a :: a in Filtered(apps, f) <==> a in apps && Matches(a, f)
  {
    forall a ensures a in Filtered(apps, f) <==> a in apps && Matches(a, f) {
      if a in Filtered(apps, f) {
        FilteredSound(apps, f, a);
      }
      if a in apps && Matches(a, f) {
        FilteredComplete(apps, f, a);
      }
    }
  }

  lemma FilteredSound(apps: seq<AdminApplication>, f: Filters, a: AdminApplication)
    requires a in Filtered(apps, f)
    ensures a in apps && Matches(a, f)
  {
    var ks := Kept(apps, f, 0);
    var r := Filtered(apps, f);
    var k :| 0 <= k < |r| && r[k] == a;
    assert ks[k] in ks;
  }

  lemma FilteredComplete(apps: seq<AdminApplication>, f: Filters, a: AdminApplication)
    requires a in apps && Matches(a, f)
    ensures a in Filtered(apps, f)
  {
    var ks := Kept(apps, f, 0);
    var r := Filtered(apps, f);
    var i :| 0 <= i < |apps| && apps[i] == a;
    assert i in ks;
    var k :| 0 <= k < |ks| && ks[k] == i;
    assert r[k] == a;
  }

  /** With an empty search and both drop-downs on `all`, nothing is
      filtered out. */
  lemma NoFilterKeepsAll(apps: seq<AdminApplication>)
    ensures Filtered(apps, Filters("", All, All)) == apps
  {
    var f := Filters("", All, All);
    var ks := Kept(apps, f, 0);
    KeptAll(apps, f, 0);
    assert |ks| == |apps|;
  }

  lemma {:induction false} KeptAll(apps: seq<AdminApplication>, f: Filters, from: nat)
    requires from <= |apps|
    requires forall i :: from <= i < |apps| ==> Matches(apps[i], f)
    ensures var ks := Kept(apps, f, from);
            |ks| == |apps| - from && forall k :: 0 <= k < |ks| ==> ks[k] == from + k
    decreases |apps| - from
  {
    if from < |apps| {
      KeptAll(apps, f, from + 1);
    }
  }

  lemma {:induction false} LowerIdempotent(s: string)
    ensures Strings.ToLower(Strings.ToLower(s)) == Strings.ToLower(s)
  {
  }

  /** The search ignores the case of the term. */
  lemma SearchIgnoresTermCase(app: AdminApplication, term: string)
    ensures term != "" ==> (MatchesSearch(app, term) <==> MatchesSearch(app, Strings.ToLower(term)))
  {
    LowerIdempotent(term);
  }

  /** The search reads answer values only: two applications with the same
      values in the same order match the same terms, whatever their keys,
      role or status. */
  lemma SearchReadsValuesOnly(app: AdminApplication, other: AdminApplication, term: string)
    requires |app.answers| == |other.answers|
    requires forall j :: 0 <= j < |app.answers| ==> app.answers[j].value == other.answers[j].value
    ensures MatchesSearch(app, term) <==> MatchesSearch(other, term)
  {
  }

  // ----- Export filters -----

  /** `handleExport`'s filters, as the export request sends them: `all`
      becomes absent, and the client leaves out an empty value too. */
  function ExportQuery(format: string, f: Filters): (q: AdminExport.Query)
    ensures q.format == Some(format)
    ensures q.role.None? <==> f.role == All || f.role == ""
    ensures q.role.Some? ==> q.role.value == f.role
    ensures q.status.None? <==> f.status == All || f.status == ""
    ensures q.status.Some? ==> q.status.value == f.status
  {
    AdminExport.Query(
      Some(format),
      if f.role != All && f.role != "" then Some(f.role) else None,
      if f.status != All && f.status != "" then Some(f.status) else None)
  }

  /** The export selects what the list shows, search aside, for every
      application whose status is set. */
  lemma ExportMatchesListFilters(app: AdminApplication, format: string, f: Filters)
    requires f.role != "" && f.status != ""
    requires app.status.Some? && app.status.value != ""
    ensures AdminExport.Selected(ExportQuery(format, f), app) <==> MatchesRole(app, f.role) && MatchesStatus(app, f.status)
  {
  }

  /** An application without a status is listed under `pending` but left
      out of a `pending` export, which compares the stored value. */
  lemma UnsetStatusListedButNotExported(app: AdminApplication, format: string)
    requires app.status.None?
    ensures MatchesStatus(app, "pending")
    ensures !AdminExport.Selected(ExportQuery(format, Filters("", All, "pending")), app)
  {
  }

  // ----- The session record -----

  datatype Session = Session(
    authenticated: bool,
    loggingIn: bool,
    loginError: Option<string>,
    applications: seq<AdminApplication>,
    analytics: Option<AdminAnalytics.Summary>,
    loading: bool,
    error: Option<string>)

  const LoginFailed := "Login failed"
  const NetworkError := "Network error. Please try again."
  const LoadFailed := "Failed to load dashboard data. Please try again."
  const ExportFailed := "Failed to export applications. Please try again."

  /** The login service's answer: accepted, refused with an optional
      message, or a thrown request. */
  datatype LoginOutcome = Accepted | Refused(message: Option<string>) | Unreachable

  /** `handleLogin`. */
  function Login(s: Session, outcome: LoginOutcome): (t: Session)
    ensures !t.loggingIn
    ensures t.authenticated <==> s.authenticated || outcome.Accepted?
    ensures outcome.Accepted? ==> t.loginError == None
    ensures outcome.Refused? ==> t.loginError.Some? && t.loginError.value != ""
    ensures outcome.Refused? && outcome.message.Some? && outcome.message.value != "" ==> t.loginError == outcome.message
    ensures outcome.Unreachable? ==> t.loginError == Some(NetworkError)
    ensures t.applications == s.applications && t.analytics == s.analytics && t.error == s.error
  {
    var started := s.(loggingIn := true, loginError := None);
    var settled :=
      match outcome
      case Accepted => started.(authenticated := true)
      case Refused(m) => started.(loginError := Some(if m.Some? && m.value != "" then m.value else LoginFailed))
      case Unreachable => started.(loginError := Some(NetworkError));
    settled.(loggingIn := false)
  }

  /** `loadDashboardData`: both lists arrive, or neither is replaced. */
  function Load(s: Session, loaded: Option<(seq<AdminApplication>, AdminAnalytics.Summary)>): (t: Session)
    ensures !t.loading && t.authenticated == s.authenticated
    ensures loaded.Some? ==> t.applications == loaded.value.0 && t.analytics == Some(loaded.value.1) && t.error == None
    ensures loaded.None? ==> t.applications == s.applications && t.analytics == s.analytics && t.error == Some(LoadFailed)
  {
    var started := s.(loading := true, error := None);
    var settled :=
      if loaded.Some? then started.(applications := loaded.value.0, analytics := Some(loaded.value.1))
      else started.(error := Some(LoadFailed));
    settled.(loading := false)
  }

  /** A failed export only sets the error. */
  function ExportFailure(s: Session): (t: Session)
    ensures t.error == Some(ExportFailed) && t == s.(error := t.error)
  {
    s.(error := Some(ExportFailed))
  }

  /** `handleLogout`: signed out, with the loaded data dropped. */
  function Logout(s: Session): (t: Session)
    ensures !t.authenticated && t.applications == [] && t.analytics.None?
    ensures t.loggingIn == s.loggingIn && t.loginError == s.loginError
    ensures t.loading == s.loading && t.error == s.error
  {
    s.(authenticated := false, applications := [], analytics := None)
  }

  /** After logging out, the list filter has nothing to show. */
  lemma LogoutShowsNothing(s: Session, f: Filters)
    ensures Filtered(Logout(s).applications, f) == []
  {
  }
}
