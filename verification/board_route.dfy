/** The board endpoint (src/app/api/artifacts/board/route.ts): the board
    configuration, the sprint list, the admin role and each role actor's
    profile, fetched from the issue tracker and reshaped into BoardDetails.

    Each upstream request yields a well-formed record or nothing (`undefined`);
    those results are the inputs here, and the per-actor profile request is
    the function `fetchUser` from account id to result. */
module BoardRoute {
  import opened Wrappers
  import opened Types

  /** The HTTP response: a status and a JSON body. */
  datatype Response = Response(status: int, body: BoardDetails)

  const StatusOk := 200

  /** The profile requests: one per role actor, in actor order, by account
      id; none at all without a role. */
  function Users(role: Option<JiraProjectRole>, fetchUser: string -> Option<JiraUser>): (r: seq<Option<JiraUser>>)
    ensures role.None? ==> r == []
    ensures role.Some? ==> |r| == |role.value.actors|
    ensures role.Some? ==> forall i :: 0 <= i < |r| ==> r[i] == fetchUser(role.value.actors[i].accountId)
  {
    match role
    case None => []
    case Some(r) => seq(|r.actors|, i requires 0 <= i < |r.actors| => fetchUser(r.actors[i].accountId))
  }

  /** A member as the board shows it: the 48x48 avatar, the name and whether
      the account is active. */
  function MemberOf(user: JiraUser): (m: BoardMember)
    ensures m.avatarUrl == user.avatarUrls.size48
    ensures m.displayName == user.displayName && m.active == user.active
  {
    BoardMember(user.avatarUrls.size48, user.displayName, user.active)
  }

  /** The profiles that arrived, in order, as board members. */
  function Members(users: seq<Option<JiraUser>>): (r: seq<BoardMember>)
    ensures |r| <= |users|
    ensures |r| == |users| <==> forall i :: 0 <= i < |users| ==> users[i].Some?
    ensures forall m :: m in r <==>
              exists i :: 0 <= i < |users| && users[i].Some? && m == MemberOf(users[i].value)
  {
    if users == [] then []
    else
      var rest := Members(users[1..]);
      assert forall i :: 1 <= i < |users| ==> users[i] == users[1..][i - 1];
      (if users[0].Some? then [MemberOf(users[0].value)] else []) + rest
  }

  /** The members keep the order of the profiles they come from. */
  lemma {:induction false} MembersAppend(a: seq<Option<JiraUser>>, b: seq<Option<JiraUser>>)
    ensures Members(a + b) == Members(a) + Members(b)
  {
    if a == [] {
      assert a + b == b;
    } else {
      assert (a + b)[0] == a[0];
      assert (a + b)[1..] == a[1..] + b;
      MembersAppend(a[1..], b);
    }
  }

  /** A sprint as the board shows it; `createdDate` is dropped. */
  function SprintOf(s: JiraSprint): (r: BoardSprint)
    ensures r.id == s.id && r.state == s.state && r.name == s.name
    ensures r.startDate == s.startDate && r.endDate == s.endDate && r.completeDate == s.completeDate
  {
    BoardSprint(s.id, s.state, s.name, s.startDate, s.endDate, s.completeDate)
  }

  /** The sprints of the sprint list, in order; none when the list is missing. */
  function Sprints(sprint: Option<JiraBoardSprint>): (r: seq<BoardSprint>)
    ensures sprint.None? ==> r == []
    ensures sprint.Some? ==> |r| == |sprint.value.values|
    ensures sprint.Some? ==>
              forall i :: 0 <= i < |r| ==>
                var v := sprint.value.values[i];
                && r[i].id == v.id && r[i].state == v.state && r[i].name == v.name
                && r[i].startDate == v.startDate && r[i].endDate == v.endDate
                && r[i].completeDate == v.completeDate
  {
    match sprint
    case None => []
    case Some(s) => seq(|s.values|, i requires 0 <= i < |s.values| => SprintOf(s.values[i]))
  }

  /** The configured column names, in order; none when the configuration is missing. */
  function Columns(boardConfig: Option<JiraBoardConfiguration>): (r: seq<string>)
    ensures boardConfig.None? ==> r == []
    ensures boardConfig.Some? ==> |r| == |boardConfig.value.columns|
    ensures boardConfig.Some? ==> forall i :: 0 <= i < |r| ==> r[i] == boardConfig.value.columns[i].name
  {
    match boardConfig
    case None => []
    case Some(c) => seq(|c.columns|, i requires 0 <= i < |c.columns| => c.columns[i].name)
  }

  /** The project's name and id; empty strings when the configuration is missing. */
  function ProjectOf(boardConfig: Option<JiraBoardConfiguration>): (p: Project)
    ensures boardConfig.None? ==> p == Project("", "")
    ensures boardConfig.Some? ==>
              p.id == boardConfig.value.location.id && p.name == boardConfig.value.location.name
  {
    match boardConfig
    case None => Project("", "")
    case Some(c) => Project(c.location.id, c.location.name)
  }

  /** `GET`: the board details assembled from the upstream records. A record
      that is missing (`undefined`) empties its part of the body, and the
      response status is 200. Records that arrive are taken to have the
      fields the handler reads; a record without them makes the handler throw,
      which is outside this model. */
  function Get(boardConfig: Option<JiraBoardConfiguration>, sprint: Option<JiraBoardSprint>,
               role: Option<JiraProjectRole>, fetchUser: string -> Option<JiraUser>): (r: Response)
    ensures r.status == 200
    ensures r.body.project == ProjectOf(boardConfig)
    ensures r.body.columns == Columns(boardConfig)
    ensures r.body.sprints == Sprints(sprint)
    ensures role.None? ==> r.body.members == []
    ensures role.Some? ==> |r.body.members| <= |role.value.actors|
    ensures role.Some? ==>
              forall m :: m in r.body.members <==>
                exists i :: 0 <= i < |role.value.actors|
                            && fetchUser(role.value.actors[i].accountId).Some?
                            && m == MemberOf(fetchUser(role.value.actors[i].accountId).value)
  {
    var users := Users(role, fetchUser);
    Response(StatusOk, BoardDetails(ProjectOf(boardConfig), Columns(boardConfig), Sprints(sprint), Members(users)))
  }
}
