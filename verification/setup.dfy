/**
 * The `setUp` command: after the login and set-up-file checks it fetches
 * the team's projects, keeps those the user is a member of, narrows each
 * one's environments to the member ones, and offers them for picking.
 * Token generation, the project request and the decoding of the access
 * token are replaced by their results, given as inputs; the two quick
 * picks are replaced by the user's answers.
 */
module ProjectSetup {
  import opened Common

  datatype Environment = Environment(title: string, member: bool)
  datatype Project = Project(title: string, member: bool, environments: seq<Environment>)

  /** What `checkSetupFile` finds: no editor open, or the number of `.onboardbase.yaml` files in the workspace. */
  datatype SetupFileProbe = NoActiveEditor | Found(count: nat)

  /** What `setUp` does, in order. */
  datatype Event =
    | ShowError(message: string)
    | ShowInfo(message: string)
    | RequestProjects
    | PickProject(titles: seq<string>)
    | PickEnvironment(choices: Option<seq<string>>)
    | SetUpProject(project: Option<string>, pickedEnv: Option<string>, canUploadEnv: bool)

  const Employee := "Employee"
  const PleaseLogin := "Please login"
  const OpenWorkspace := "Please open a folder or workspace"
  const SetupFilePresent := "Setup file is present"

  const NoProjectBefore := "Sorry you don't have any project under the "
  const NoProjectAfter := " team, please signin to Onboardbase and create a project."

  function NoProjectMessage(team: string): string
  {
    NoProjectBefore + team + NoProjectAfter
  }

  /**
   * Whether `await checkSetupFile()` is truthy. Without an editor the
   * function returns the promise of the information message, which the
   * `await` resolves to `undefined` (the message has no buttons), so the
   * command carries on.
   */
  predicate SetupFilePresentIn(probe: SetupFileProbe)
  {
    probe.Found? && probe.count > 0
  }

  function MemberProjects(projects: seq<Project>): seq<Project>
  {
    Filter(projects, (p: Project) => p.member)
  }

  function MemberEnvironments(environments: seq<Environment>): seq<Environment>
  {
    Filter(environments, (e: Environment) => e.member)
  }

  /** `Object.assign(project, {environments: {list: <member environments>}})`. */
  function Narrowed(p: Project): Project
  {
    p.(environments := MemberEnvironments(p.environments))
  }

  /** `projects.map(project => Object.assign(project, ...))` as a value: every project narrowed. */
  function NarrowAll(projects: seq<Project>): (modified: seq<Project>)
    ensures |modified| == |projects|
    ensures forall i :: 0 <= i < |projects| ==> modified[i] == Narrowed(projects[i])
  {
    seq(|projects|, i requires 0 <= i < |projects| => Narrowed(projects[i]))
  }

  /** `.map(({title}) => title)` over projects. */
  function ProjectTitles(projects: seq<Project>): seq<string>
  {
    MapSeq(projects, (p: Project) => p.title)
  }

  /** `.map(({title}) => title)` over environments. */
  function EnvironmentTitles(environments: seq<Environment>): seq<string>
  {
    MapSeq(environments, (e: Environment) => e.title)
  }

  /** `projects.find(({title}) => picked === title)`. */
  function FindByTitle(projects: seq<Project>, picked: Option<string>): (r: Option<nat>)
    ensures r.Some? ==> r.value < |projects| && picked == Some(projects[r.value].title)
    ensures r.Some? ==> forall j :: 0 <= j < r.value ==> picked != Some(projects[j].title)
    ensures r.None? ==> forall j :: 0 <= j < |projects| ==> picked != Some(projects[j].title)
    decreases |projects|
  {
    if |projects| == 0 then None
    else if picked == Some(projects[0].title) then Some(0)
    else
      var r := FindByTitle(projects[1..], picked);
      if r.Some? then Some(r.value + 1) else None
  }

  /** `modifiedProjects.find(...)?.environments.list.map(({title}) => title)`. */
  function EnvironmentChoices(modified: seq<Project>, picked: Option<string>): Option<seq<string>>
  {
    var i := FindByTitle(modified, picked);
    if i.Some? then Some(EnvironmentTitles(modified[i.value].environments)) else None
  }

  /**
   * Everything `setUp` does for the given login state, set-up-file probe,
   * fetched projects, decoded team and role, and picks.
   */
  function SetUpEvents(loggedIn: bool, probe: SetupFileProbe, projects: seq<Project>, team: string, role: string,
                       pickedProject: Option<string>, pickedEnv: Option<string>): seq<Event>
  {
    if !loggedIn then [ShowError(PleaseLogin)]
    else if SetupFilePresentIn(probe) then [ShowInfo(SetupFilePresent)]
    else
      var prelude := if probe.NoActiveEditor? then [ShowInfo(OpenWorkspace)] else [];
      prelude + [RequestProjects] + ProjectEvents(MemberProjects(projects), team, role, pickedProject, pickedEnv)
  }

  /** What follows the project request, given the member projects. */
  function ProjectEvents(members: seq<Project>, team: string, role: string,
                         pickedProject: Option<string>, pickedEnv: Option<string>): seq<Event>
  {
    if |members| == 0 then [ShowInfo(NoProjectMessage(team))]
    else
      var modified := NarrowAll(members);
      [PickProject(ProjectTitles(modified)), PickEnvironment(EnvironmentChoices(modified, pickedProject)),
       SetUpProject(pickedProject, pickedEnv, role != Employee)]
  }

  /** `projects.map(project => Object.assign(project, ...))`: each project's environment list narrowed in turn. */
  method NarrowEnvironments(projects: seq<Project>) returns (modified: seq<Project>)
    ensures modified == NarrowAll(projects)
  {
    modified := [];
    var k := 0;
    while k < |projects|
      invariant 0 <= k <= |projects|
      invariant |modified| == k
      invariant forall i :: 0 <= i < k ==> modified[i] == Narrowed(projects[i])
    {
      modified := modified + [Narrowed(projects[k])];
      k := k + 1;
    }
  }

  /** The command itself, step by step. */
  method SetUp(loggedIn: bool, probe: SetupFileProbe, fetched: seq<Project>, team: string, role: string,
               pickedProject: Option<string>, pickedEnv: Option<string>) returns (events: seq<Event>)
    ensures events == SetUpEvents(loggedIn, probe, fetched, team, role, pickedProject, pickedEnv)
  {
    if !loggedIn {
      return [ShowError(PleaseLogin)];
    }
    var prelude := if probe.NoActiveEditor? then [ShowInfo(OpenWorkspace)] else [];
    var isSetUpFilePresent := probe.Found? && probe.count > 0;
    if isSetUpFilePresent {
      return [ShowInfo(SetupFilePresent)];
    }
    var projects := fetched;
    projects := MemberProjects(projects);
    var rest: seq<Event>;
    if |projects| == 0 {
      rest := [ShowInfo(NoProjectMessage(team))];
    } else {
      var canUploadEnv := role != Employee;
      var modifiedProjects := NarrowEnvironments(projects);
      var environments := EnvironmentChoices(modifiedProjects, pickedProject);
      rest := [PickProject(ProjectTitles(modifiedProjects)), PickEnvironment(environments),
               SetUpProject(pickedProject, pickedEnv, canUploadEnv)];
    }
    assert rest == ProjectEvents(projects, team, role, pickedProject, pickedEnv);
    events := prelude + [RequestProjects] + rest;
  }

  // ---------------------------------------------------------------------
  // Properties
  // ---------------------------------------------------------------------

  /** A project is offered exactly when it was fetched and the user is a member of it. */
  lemma MemberProjectsExactly(projects: seq<Project>, p: Project)
    ensures p in MemberProjects(projects) <==> p in projects && p.member
  {
    FilterMembership(projects, (q: Project) => q.member, p);
  }

  /** Keeping member projects preserves their order: the filter distributes over concatenation. */
  lemma MemberProjectsInOrder(a: seq<Project>, b: seq<Project>)
    ensures MemberProjects(a + b) == MemberProjects(a) + MemberProjects(b)
  {
    FilterConcat(a, b, (q: Project) => q.member);
  }

  /** A narrowed project keeps its title and membership and exactly its member environments. */
  lemma NarrowedExactly(p: Project, e: Environment)
    ensures Narrowed(p).title == p.title && Narrowed(p).member == p.member
    ensures e in Narrowed(p).environments <==> e in p.environments && e.member
  {
    FilterMembership(p.environments, (x: Environment) => x.member, e);
  }

  /** Narrowing twice is narrowing once. */
  lemma {:induction false} NarrowedIdempotent(p: Project)
    ensures Narrowed(Narrowed(p)) == Narrowed(p)
  {
    var kept := MemberEnvironments(p.environments);
    forall i | 0 <= i < |kept|
      ensures kept[i].member
    {
      FilterMembership(p.environments, (x: Environment) => x.member, kept[i]);
    }
    FilterAllKept(kept, (x: Environment) => x.member);
  }

  /** Logged out, or with a set-up file present, the command stops at once, before any project request. */
  lemma EarlyExits(loggedIn: bool, probe: SetupFileProbe, projects: seq<Project>, team: string, role: string,
                   pickedProject: Option<string>, pickedEnv: Option<string>)
    ensures var events := SetUpEvents(loggedIn, probe, projects, team, role, pickedProject, pickedEnv);
      (!loggedIn ==> events == [ShowError(PleaseLogin)]) &&
      (loggedIn && SetupFilePresentIn(probe) ==> events == [ShowInfo(SetupFilePresent)]) &&
      (RequestProjects in events <==> loggedIn && !SetupFilePresentIn(probe))
  {
  }

  /**
   * With no member project the team is named in a message and nothing is
   * picked or set up; with one, both picks and the set-up follow.
   */
  lemma NoMemberProject(projects: seq<Project>, team: string, role: string, probe: SetupFileProbe,
                        pickedProject: Option<string>, pickedEnv: Option<string>)
    requires !SetupFilePresentIn(probe)
    ensures var events := SetUpEvents(true, probe, projects, team, role, pickedProject, pickedEnv);
      (forall p :: p in projects ==> !p.member) <==> events[|events| - 1] == ShowInfo(NoProjectMessage(team))
  {
    MemberProjectsEmpty(projects);
  }

  /** No project is kept exactly when the user is a member of none. */
  lemma {:induction false} MemberProjectsEmpty(projects: seq<Project>)
    ensures |MemberProjects(projects)| == 0 <==> forall p :: p in projects ==> !p.member
    decreases |projects|
  {
    if |projects| > 0 {
      MemberProjectsEmpty(projects[1..]);
      assert forall p :: p in projects <==> p == projects[0] || p in projects[1..];
    }
  }

  /** Only the `Employee` role is refused the env upload. */
  lemma CanUploadUnlessEmployee(projects: seq<Project>, team: string, role: string, probe: SetupFileProbe,
                                pickedProject: Option<string>, pickedEnv: Option<string>)
    requires !SetupFilePresentIn(probe) && exists p :: p in projects && p.member
    ensures var events := SetUpEvents(true, probe, projects, team, role, pickedProject, pickedEnv);
      events[|events| - 1] == SetUpProject(pickedProject, pickedEnv, role != "Employee")
  {
    var p :| p in projects && p.member;
    MemberProjectsExactly(projects, p);
  }

  /**
   * The environment list offered is the titles of the member environments
   * of the first member project whose title is the picked one, in order;
   * nothing is offered when no member project has that title.
   */
  lemma EnvironmentChoicesFirstMatch(projects: seq<Project>, picked: Option<string>)
    ensures var members := MemberProjects(projects);
      var modified := NarrowAll(members);
      var choices := EnvironmentChoices(modified, picked);
      (choices.None? <==> forall p :: p in projects && p.member ==> picked != Some(p.title)) &&
      (choices.Some? ==>
        (exists i :: 0 <= i < |members| && picked == Some(members[i].title) &&
                     (forall j :: 0 <= j < i ==> picked != Some(members[j].title)) &&
                     choices.value == EnvironmentTitles(MemberEnvironments(members[i].environments))))
  {
    var members := MemberProjects(projects);
    var modified := NarrowAll(members);
    var r := FindByTitle(modified, picked);
    assert forall j :: 0 <= j < |members| ==> modified[j].title == members[j].title;
    forall p | p in projects && p.member
      ensures p in members
    {
      MemberProjectsExactly(projects, p);
    }
    if r.None? {
      forall p | p in projects && p.member
        ensures picked != Some(p.title)
      {
        var i :| 0 <= i < |members| && members[i] == p;
        assert modified[i].title == p.title;
      }
    } else {
      var i := r.value;
      MemberProjectsExactly(projects, members[i]);
      assert modified[i].environments == MemberEnvironments(members[i].environments);
    }
  }
}
