/** The shared record shapes of src/types/index.d.ts, plus the two shapes the
    artifact catalogue imports from there (TreeContent, ArtifactsNode), whose
    fields are the ones page.tsx builds and artifacts-viewer.tsx reads. */
module Types {
  import opened Wrappers

  // ---------------------------------------------------------------------------
  // Artifact catalogue

  /** The `type` discriminator of a catalogue entry: 'folder' or 'file'. */
  datatype Kind = Folder | File

  /** The optional `files` field of a catalogue entry: `Present` (possibly
      with no entries) or `Absent`. */
  datatype Files = Absent | Present(nodes: seq<TreeContent>)

  /** One catalogue entry `{type, name, path, files?}`; `files` is present for
      folders and absent (not merely empty) for files. */
  datatype TreeContent = TreeContent(kind: Kind, name: string, path: string, files: Files)

  /** One level of the viewer's navigation: the entries shown and, when this
      level was entered from another, that level (`{artifacts, previous?}`). */
  datatype ArtifactsNode = ArtifactsNode(artifacts: seq<TreeContent>, previous: Option<ArtifactsNode>)

  // ---------------------------------------------------------------------------
  // Board details served by the board endpoint and shown by the sprint board

  datatype Project = Project(id: string, name: string)

  datatype BoardMember = BoardMember(avatarUrl: string, displayName: string, active: bool)

  datatype BoardSprint = BoardSprint(
    id: int, state: string, name: string,
    startDate: string, endDate: string, completeDate: Option<string>)

  datatype BoardDetails = BoardDetails(
    project: Project, columns: seq<string>, sprints: seq<BoardSprint>, members: seq<BoardMember>)

  datatype IssueType = IssueType(iconUrl: string, description: string, name: string)

  datatype Priority = Priority(iconUrl: string, name: string)

  /** A sprint issue. `timeSpent` and `storyPointEstimate` are read by the
      board but not declared in the shared type; both are optional whole
      numbers here. */
  datatype BoardSprintIssue = BoardSprintIssue(
    id: string, key: string, issueType: IssueType, priority: Priority,
    assignee: Option<BoardMember>, status: string, description: Option<string>,
    summary: string, timeSpent: Option<nat>, storyPointEstimate: Option<nat>)

  datatype BoardSprintIssues = BoardSprintIssues(issues: seq<BoardSprintIssue>)

  // ---------------------------------------------------------------------------
  // Upstream issue-tracker records (only the fields the board endpoint reads)

  datatype JiraLocation = JiraLocation(id: string, name: string)

  datatype JiraColumn = JiraColumn(name: string)

  /** `{location, columnConfig: {columns}}`; `columns` is `columnConfig.columns`. */
  datatype JiraBoardConfiguration = JiraBoardConfiguration(location: JiraLocation, columns: seq<JiraColumn>)

  datatype JiraSprint = JiraSprint(
    id: int, state: string, name: string, startDate: string, endDate: string,
    completeDate: Option<string>, createdDate: string)

  datatype JiraBoardSprint = JiraBoardSprint(
    maxResults: int, startAt: int, total: int, isLast: bool, values: seq<JiraSprint>)

  /** A role actor; `accountId` is `actorUser.accountId`. */
  datatype JiraActor = JiraActor(id: string, displayName: string, accountId: string)

  datatype JiraProjectRole = JiraProjectRole(name: string, description: string, actors: seq<JiraActor>)

  /** The four avatar sizes '48x48', '32x32', '24x24' and '16x16'. */
  datatype JiraAvatarUrls = JiraAvatarUrls(size48: string, size32: string, size24: string, size16: string)

  datatype JiraUser = JiraUser(accountId: string, avatarUrls: JiraAvatarUrls, displayName: string, active: bool)
}
