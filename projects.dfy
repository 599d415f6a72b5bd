/**
 * The per-user project list: `saveProject` inserts a project without an id
 * under a timestamp id or replaces the first project with the same id;
 * `deleteProject` filters the list by id.
 */
module Projects {
  import opened Wrappers
  import opened Records
  import opened JsArray

  /** JavaScript truthiness of `project.id`: present and not the empty string. */
  predicate HasId(p: Project) {
    p.id.Some? && p.id.value != ""
  }

  function DigitChar(d: nat): char
    requires d < 10
  {
    ('0' as int + d) as char
  }

  /** The number a string of decimal digits denotes, most significant digit first. */
  function DecimalValue(s: string): int {
    if s == [] then 0 else DecimalValue(s[..|s| - 1]) * 10 + (s[|s| - 1] as int - '0' as int)
  }

  /**
   * The decimal text of a non-negative number, as a template literal renders
   * `Date.now()`: digits only, no leading zero, and reading it back gives `n`.
   */
  function DecimalString(n: nat): (s: string)
    ensures |s| >= 1
    ensures forall i :: 0 <= i < |s| ==> '0' <= s[i] <= '9'
    ensures n < 10 <==> |s| == 1
    ensures |s| > 1 ==> s[0] != '0'
    ensures DecimalValue(s) == n
  {
    if n < 10 then [DigitChar(n)]
    else
      var prefix := DecimalString(n / 10);
      assert (prefix + [DigitChar(n % 10)])[..|prefix|] == prefix;
      prefix + [DigitChar(n % 10)]
  }

  /** Different timestamps render as different texts: the rendering is read back exactly. */
  lemma DecimalStringInjective(m: nat, n: nat)
    requires DecimalString(m) == DecimalString(n)
    ensures m == n
  {
    assert m == DecimalValue(DecimalString(m));
  }

  /**
   * The synthetic id of a project created at `now` milliseconds: `proj_${Date.now()}`.
   * The clock reading can be read back from the id.
   */
  function NewProjectId(now: nat): (id: string)
    ensures |id| > 5 && id[..5] == "proj_"
    ensures forall i :: 5 <= i < |id| ==> '0' <= id[i] <= '9'
    ensures |id| > 6 ==> id[5] != '0'
    ensures DecimalValue(id[5..]) == now
  {
    var digits := DecimalString(now);
    assert ("proj_" + digits)[5..] == digits;
    "proj_" + digits
  }

  /** Projects created at different instants get different ids. */
  lemma NewProjectIdsDistinct(m: nat, n: nat)
    requires m != n
    ensures NewProjectId(m) != NewProjectId(n)
  {
  }

  /** `p => p.id === id` */
  function IdIs(id: Option<string>): Project -> bool {
    (p: Project) => p.id == id
  }

  /**
   * The list update of the local `saveProject`, and the project it returns.
   * Without an id the project gets `proj_<now>` and is appended; with an id it
   * replaces the first project carrying that id, at the same index, and every
   * other entry stays as it was.
   */
  function SaveToList(projects: seq<Project>, project: Project, now: nat): (r: (seq<Project>, Project))
    ensures !HasId(project) ==>
      r.1 == project.(id := Some(NewProjectId(now))) && r.0 == projects + [r.1]
    ensures HasId(project) ==> r.1 == project && |r.0| == |projects|
    ensures HasId(project) ==>
      forall k :: 0 <= k < |projects| ==>
        r.0[k] == if projects[k].id == project.id && (forall j :: 0 <= j < k ==> projects[j].id != project.id)
                  then project else projects[k]
  {
    if HasId(project) then
      var index := FindIndex(projects, IdIs(project.id));
      (if index != -1 then projects[index := project] else projects, project)
    else
      var stamped := project.(id := Some(NewProjectId(now)));
      (projects + [stamped], stamped)
  }

  /** Saving a project whose id no stored project has leaves the list as it was. */
  lemma SaveUnknownIdUnchanged(projects: seq<Project>, project: Project, now: nat)
    requires HasId(project)
    requires forall k :: 0 <= k < |projects| ==> projects[k].id != project.id
    ensures SaveToList(projects, project, now).0 == projects
  {
    var r := SaveToList(projects, project, now).0;
    assert forall k :: 0 <= k < |projects| ==> r[k] == projects[k];
  }

  /** The local `deleteProject` on the list: `projects.filter(p => p.id !== projectId)`. */
  function RemoveById(projects: seq<Project>, id: string): (r: seq<Project>)
    ensures forall k :: 0 <= k < |r| ==> r[k].id != Some(id)
  {
    Filter(projects, (p: Project) => p.id != Some(id))
  }

  /**
   * Deleting keeps every occurrence of every project with another id and no
   * project with this id; it works piecewise on a concatenation, so the kept
   * projects stay in their original order.
   */
  lemma RemoveByIdKeepsOthers(projects: seq<Project>, id: string, p: Project)
    ensures multiset(RemoveById(projects, id))[p] == if p.id == Some(id) then 0 else multiset(projects)[p]
  {
    FilterCounts(projects, (q: Project) => q.id != Some(id), p);
  }

  lemma RemoveByIdAppend(a: seq<Project>, b: seq<Project>, id: string)
    ensures RemoveById(a + b, id) == RemoveById(a, id) + RemoveById(b, id)
  {
    FilterAppend(a, b, (q: Project) => q.id != Some(id));
  }

  /** Deleting the same id twice is the same as deleting it once. */
  lemma RemoveByIdIdempotent(projects: seq<Project>, id: string)
    ensures RemoveById(RemoveById(projects, id), id) == RemoveById(projects, id)
  {
    FilterAllPass(RemoveById(projects, id), (q: Project) => q.id != Some(id));
  }

  /** A list without the id is left as it is. */
  lemma RemoveAbsentId(projects: seq<Project>, id: string)
    requires forall k :: 0 <= k < |projects| ==> projects[k].id != Some(id)
    ensures RemoveById(projects, id) == projects
  {
    FilterAllPass(projects, (q: Project) => q.id != Some(id));
  }
}
