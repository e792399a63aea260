# Artifact catalogue, viewer and sprint board: a Dafny model

This project models the logic of a small nonprofit website for wheelchair repair. The website has pages for a PDF artifact catalogue and a sprint dashboard. The model covers five parts:

- **The artifact catalogue builder** (`getArtifactsTree`, module `ArtifactsPage`). It walks the public `artifacts` directory. It keeps sub-directories and files whose names end in `.pdf`, and it turns each kept entry into a `folder` entry (with its own catalogue as `files`) or a `file` entry. Paths are made relative to the public directory by removing the first occurrence of `<cwd>/public`. The file system is an input value. A `DirEntry` carries what reading its directory yields: either its entries in storage order or `Unreadable`. One unreadable directory anywhere rejects the whole `Promise.all`, so the result is `None`.
- **The artifacts viewer** (class `Viewer.ArtifactsViewer`). It holds the level on show, a stack of previous levels linked through `previous`, the selected file, the page count of the loaded document and the page cursor. Its methods are the component's event handlers. `Valid()` states two invariants: the bottom of the stack is always the catalogue, and the cursor stays in `[1, max(1, numPages)]`.
- **The sprint board** (module `JiraBoard`). Class `BoardState` holds the shared sprint and issue state, set by the board's effects and by the sprint selector. Pure functions compute the board's figures: completed tasks, seconds worked, committed and completed points. They also compute its columns.
- **The board endpoint** (`GET`, module `BoardRoute`). It reshapes the board configuration, the sprint list, the role and the actors' profiles into `BoardDetails`, with defaults for whatever failed to arrive.
- **The hours label** (`converMsToHString`, module `Utils`). It renders seconds as the rounded number of hours followed by `h`.

Module `Types` holds the record shapes of `src/types/index.d.ts`. It also holds the two shapes the catalogue imports from there without declaring them: `TreeContent` `{type, name, path, files?}` and `ArtifactsNode` `{artifacts, previous?}`. The optional `files` field is its own datatype (`Files`). Recursion through a generic `Option` of a sequence would hide the structural order that the recursive predicates need. Module `Wrappers` holds `Option`.

Three behaviours of the code worth noting:

- The page cursor goes back to 1 when the renderer reports a successful load (`onDocumentLoadSuccess`). Selecting a file does not reset it, and a failed load leaves the old cursor and page count in place.
- A folder entry's `path` is the path of its parent directory, not its own. The catalogue walk reads a folder's children from `parentPath + '/' + name`.
- An empty folder (`files: []`) is still opened as a level, because `[]` is truthy.

`Viewer.BrowseSession` is a browsing scenario over a small catalogue: opening a folder, choosing a file, paging to the end, going back and opening an empty folder. Its assertions are checked against the contracts of the viewer's methods.

## Model

| member | source | states |
|---|---|---|
| `ArtifactsPage.Keep` | src/app/artifacts/page.tsx:12-15 | The kept entries are exactly the listed entries that are directories or whose name ends in ".pdf"; there are never more of them than listed entries. |
| `ArtifactsPage.KeepAppend` | src/app/artifacts/page.tsx:12-15 | The filter keeps listing order: filtering a concatenation gives the concatenation of the filtered parts. |
| `ArtifactsPage.RemoveFirst` | src/app/artifacts/page.tsx:27 | `replace(startingPath, '')` removes at most one occurrence: the path is unchanged, or shorter by exactly the prefix's length. |
| `ArtifactsPage.RemoveFirstOccurrence` | src/app/artifacts/page.tsx:27 | `replace(startingPath, '')` removes exactly the first occurrence: the result is the text before it followed by the text after it, the path is returned as it is when the pattern does not occur, and (for a non-empty pattern) it is unchanged only then. |
| `ArtifactsPage.IndexOf` | src/app/artifacts/page.tsx:27 | Finds the first position at or after `from` where the pattern occurs; `None` only when it occurs nowhere from there. |
| `ArtifactsPage.RemoveLeading` | src/app/artifacts/page.tsx:35 | `replace(startingPath, '')` on a path that begins with the starting path leaves exactly the rest of the path. |
| `ArtifactsPage.RemoveAbsent` | src/app/artifacts/page.tsx:27 | A path in which the starting path does not occur is left unchanged. |
| `ArtifactsPage.GetArtifactsTree` | src/app/artifacts/page.tsx:6-39 | An unreadable directory gives no catalogue, and a catalogue never has more entries than the listing (OneNodePerKeptEntry gives the exact correspondence). |
| `ArtifactsPage.BuildEntries` | src/app/artifacts/page.tsx:12-38 | The kept entries, mapped and awaited together: when all succeed there are never more nodes than listed entries (one per kept entry, by OneNodePerKeptEntry). |
| `ArtifactsPage.BuildNode` | src/app/artifacts/page.tsx:18-36 | A file entry always yields a node. A node keeps its entry's name, and it is a folder carrying `files` exactly when the entry is a directory. |
| `ArtifactsPage.ArtifactsRoot` | src/app/artifacts/page.tsx:41-44 | `path.join(process.cwd(), '/public/artifacts')`: the starting path followed by "/artifacts", except at the file-system root, where the joined path has a single separator. |
| `ArtifactsPage.Artifacts` | src/app/artifacts/page.tsx:41-44 | The page has a catalogue exactly when every directory below the artifacts directory is readable, and that catalogue is well formed at every depth. |
| `ArtifactsPage.FileNodeAt` | src/app/artifacts/page.tsx:32-36 | A PDF listed in the directory `<cwd>/public<rel>` is catalogued as a file at `<rel>/<name>`. |
| `ArtifactsPage.FolderNodeAt` | src/app/artifacts/page.tsx:19-29 | A readable directory listed in `<cwd>/public<rel>` becomes a folder at `<rel>` carrying its own catalogue. |
| `ArtifactsPage.RootWorkingDirectoryKeepsPublic` | src/app/artifacts/page.tsx:7 | With "/" as working directory, `startingPath` is "//public". The artifacts path "/public/artifacts" does not contain it, so a file named `<name>` there keeps the path "/public/artifacts/<name>". |
| `ArtifactsPage.OneNodePerKeptEntry` | src/app/artifacts/page.tsx:8-37 | A successful walk yields exactly one node per kept entry, in listing order. A directory becomes a `folder` whose `files` is the catalogue of that directory and whose path is its parent's path with the prefix removed. A file becomes a `file` with no `files`, whose path is the parent path with the prefix removed, then '/', then its name. |
| `ArtifactsPage.BuildSucceedsIffReadable` | src/app/artifacts/page.tsx:8-22 | The walk produces a catalogue if and only if every directory it reaches can be read. |
| `ArtifactsPage.CatalogueWellFormed` | src/app/artifacts/page.tsx:12-36 | At every depth of the catalogue, an entry carries `files` exactly when it is a folder, and every file entry's name ends in ".pdf". |
| `ArtifactsPage.PathsRelativeToPublic` | src/app/artifacts/page.tsx:19-36 | In a consistent listing under the public directory, every file's path is its location relative to that directory, and every folder's path is its parent's. |
| `ArtifactsPage.ArtifactsPaths` | src/app/artifacts/page.tsx:41-44 | For a working directory other than "/", every file of the catalogue is at "/artifacts/.../name", and a top-level folder's path is "/artifacts". |
| `ArtifactsPage.UpperCasePdfDropped` | src/app/artifacts/page.tsx:14 | The extension test is case-sensitive: "scan.PDF" is dropped and "scan.pdf" is kept. |
| `ArtifactsPage.CatalogueExample` | src/app/artifacts/page.tsx:6-38 | A directory with folders A (holding x.pdf) and B (empty) and files doc.pdf, notes.txt and scan.PDF is catalogued as A, B and doc.pdf, in order, with the paths the viewer loads. |
| `Viewer.Pushed` | src/components/artifacts-viewer.tsx:51 | Opening a folder shows its files, adds one level and keeps the bottom level; Back then restores the previous level exactly. |
| `Viewer.Popped` | src/components/artifacts-viewer.tsx:59 | Back is a no-op at the bottom level. Otherwise it removes exactly one level and keeps the bottom level. |
| `Viewer.DescendThenBack` | src/components/artifacts-viewer.tsx:49-61 | After opening N folders, the stack is N levels deeper with the same bottom, and N presses of Back return to the starting level exactly. |
| `Viewer.BackToRoot` | src/components/artifacts-viewer.tsx:57-61 | Pressing Back at least as many times as there are levels ends at the catalogue's bottom level, which has no previous level. |
| `Viewer.ArtifactsViewer.constructor` | src/components/artifacts-viewer.tsx:31-35 | Initial state: the catalogue as the only level with no previous level, no file selected, 0 pages, page 1. |
| `Viewer.ArtifactsViewer.BackDisabled` | src/components/artifacts-viewer.tsx:78 | The Back button is disabled exactly when the viewer is at the bottom level. |
| `Viewer.ArtifactsViewer.PreviousPageDisabled` | src/components/artifacts-viewer.tsx:110 | The Previous Page button is disabled exactly when one page back would leave the document. |
| `Viewer.ArtifactsViewer.NextPageDisabled` | src/components/artifacts-viewer.tsx:119 | The Next Page button is disabled exactly when one page forward would leave `[1, max(1, numPages)]`. |
| `Viewer.ArtifactsViewer.TraverseForward` | src/components/artifacts-viewer.tsx:49-55 | An entry with `files` (even an empty one) pushes the current level and shows those files, leaving the selection unchanged. An entry without `files` becomes the selected file, leaving the level and history unchanged. Neither changes the page count or the page. |
| `Viewer.ArtifactsViewer.TraverseBackward` | src/components/artifacts-viewer.tsx:57-61 | Restores `previous` when there is one and removes one level. When the Back button is disabled (no `previous`, line 78), nothing changes. Selection and page are never touched. |
| `Viewer.ArtifactsViewer.OnDocumentLoadSuccess` | src/components/artifacts-viewer.tsx:63-66 | The loaded document's page count is recorded and the cursor returns to page 1; the level and selection are unchanged. |
| `Viewer.ArtifactsViewer.PreviousPage` | src/components/artifacts-viewer.tsx:110-111 | Moves back one page unless on page 1, where the button is disabled. The cursor stays within `[1, max(1, numPages)]`. |
| `Viewer.ArtifactsViewer.NextPage` | src/components/artifacts-viewer.tsx:119-120 | Moves forward one page unless there are no pages or this is the last page, where the button is disabled. The cursor stays within `[1, max(1, numPages)]`. |
| `JiraBoard.FindIndex` | src/components/jira-board.tsx:53-55 | `find`: the index returned satisfies the test and no earlier one does; none is returned only when no sprint satisfies it. |
| `JiraBoard.Find` | src/components/jira-board.tsx:53-55 | `find`: the sprint returned satisfies the test and no earlier one does; none is returned exactly when no sprint satisfies it. |
| `JiraBoard.ActiveSprint` | src/components/jira-board.tsx:53-55 | The result is the first sprint whose state is 'active'. It is absent exactly when no sprint is active. |
| `JiraBoard.SprintNamed` | src/components/jira-board.tsx:166-168 | The result is the first sprint with the chosen name. It is absent exactly when no sprint has that name. |
| `JiraBoard.BoardState.constructor` | src/components/jira-board.tsx:39-40 | The shared sprint and issues both start out absent. |
| `JiraBoard.BoardState.OnBoardDetails` | src/components/jira-board.tsx:50-59 | With board details that include an active sprint, that sprint becomes current. Without details, or without an active sprint, the current sprint is unchanged. The issues are never touched. |
| `JiraBoard.BoardState.HandleOnValueChange` | src/components/jira-board.tsx:166-168 | The current sprint becomes the first sprint with the chosen name, or none. |
| `JiraBoard.BoardState.OnSprintIssues` | src/components/jira-board.tsx:213-217 | Arriving issues replace the shared issues; no data leaves them unchanged. |
| `JiraBoard.WithStatus` | src/components/jira-board.tsx:237 | The filtered issues are exactly those with the given status, and there are never more of them than there are issues. |
| `JiraBoard.WithStatusAppend` | src/components/jira-board.tsx:237 | The filter keeps the original order: filtering a concatenation gives the concatenation of the filtered parts. |
| `JiraBoard.WithStatusCount` | src/components/jira-board.tsx:237 | The filter keeps every copy of a matching issue and drops every copy of any other. |
| `JiraBoard.CompletedTasks` | src/components/jira-board.tsx:64-65 | Completed tasks are exactly the issues with status 'Done', so there are at most as many as there are issues. No issue list counts as empty. |
| `JiraBoard.SumTimeSpent` | src/components/jira-board.tsx:93-94 | The total for one issue is its `timeSpent || 0`. It is at least each issue's time and is 0 exactly when no issue has time logged. With SumTimeSpentAppend it is the sum over the issues. |
| `JiraBoard.SumTimeSpentAppend` | src/components/jira-board.tsx:93-94 | The total of a concatenation is the sum of the parts' totals. |
| `JiraBoard.SumTimeSpentReduce` | src/components/jira-board.tsx:93-94 | The `reduce` order: the total is the total of all issues but the last, plus the last issue's `timeSpent || 0`. |
| `JiraBoard.SumPoints` | src/components/jira-board.tsx:96-98 | The points of one issue are its `storyPointEstimate || 0`. The total is at least each issue's estimate and is 0 exactly when no issue has points. With SumPointsAppend it is the sum over the issues. |
| `JiraBoard.SumPointsAppend` | src/components/jira-board.tsx:96-98 | The points of a concatenation are the sum of the parts' points. |
| `JiraBoard.SumPointsReduce` | src/components/jira-board.tsx:96-98 | The `reduce` order: the total is the total of all issues but the last, plus the last issue's estimate. |
| `JiraBoard.SecondsWorked` | src/components/jira-board.tsx:93-94 | Seconds worked is 0 when there is no issue list and otherwise the sum of the issues' `timeSpent || 0`, so it bounds every issue's time. |
| `JiraBoard.CommittedPoints` | src/components/jira-board.tsx:96-98 | Committed points are 0 when there is no issue list and otherwise the sum of all issues' estimates. |
| `JiraBoard.CompletedPoints` | src/components/jira-board.tsx:100-103 | Completed points are the sum of the completed tasks' estimates, 0 when there is no issue list. |
| `JiraBoard.SumPointsWithStatus` | src/components/jira-board.tsx:100-103 | Points summed over filtered issues never exceed the points of all issues. |
| `JiraBoard.CompletedWithinCommitted` | src/components/jira-board.tsx:96-103 | Completed points never exceed committed points. They are equal when every issue is Done. |
| `JiraBoard.BoardColumn` | src/components/jira-board.tsx:236-237 | A column shows exactly the issues whose status equals its name. |
| `JiraBoard.Board` | src/components/jira-board.tsx:224-226 | One column per configured name, in order, each showing exactly the issues with that status. |
| `JiraBoard.EveryIssueShownOnce` | src/components/jira-board.tsx:224-237 | With distinct column names that cover every status, the board shows each issue on exactly one card. |
| `BoardRoute.Users` | src/app/api/artifacts/board/route.ts:24-30 | One profile request per role actor, in actor order, by account id. With no role there are no requests. |
| `BoardRoute.MemberOf` | src/app/api/artifacts/board/route.ts:53-58 | A member shows the profile's 48x48 avatar, display name and active flag. |
| `BoardRoute.Members` | src/app/api/artifacts/board/route.ts:51-59 | Members are exactly the profiles that arrived, each with its 48x48 avatar, display name and active flag. There are never more members than profiles, and the counts are equal only when every profile arrived. |
| `BoardRoute.MembersAppend` | src/app/api/artifacts/board/route.ts:51-59 | Members keep the order of the profiles they come from. |
| `BoardRoute.SprintOf` | src/app/api/artifacts/board/route.ts:41-49 | A sprint keeps the upstream id, state, name, start, end and completion date. |
| `BoardRoute.Sprints` | src/app/api/artifacts/board/route.ts:40-50 | The sprints match the upstream sprints one for one, in order. Each copies id, state, name, start, end and completion date and drops the creation date. With no sprint list there are none. |
| `BoardRoute.Columns` | src/app/api/artifacts/board/route.ts:38-39 | The column-configuration names, in order, or none when the configuration is missing. |
| `BoardRoute.ProjectOf` | src/app/api/artifacts/board/route.ts:34-37 | The project's id and name come from the configuration's location, or are empty strings when it is missing. |
| `BoardRoute.Get` | src/app/api/artifacts/board/route.ts:32-62 | For well-formed or missing records, the status is 200. Project, columns and sprints are built as stated above. With no role the member list is empty. Otherwise there are no more members than actors, and a member is exactly an actor whose profile arrived. |
| `Utils.Hours` | src/lib/utils.ts:27 | `Math.round(seconds / 3600)`: the nearest whole hour, with exact half hours rounded up (3600h - 1800 <= seconds < 3600h + 1800). |
| `Utils.DecimalString` | src/lib/utils.ts:27 | The template literal's rendering of a whole number: digits only, at least one, no leading zero, "0" exactly for zero. |
| `Utils.DecimalRoundTrip` | src/lib/utils.ts:27 | Reading the rendered digits back gives the number that was rendered. |
| `Utils.ConverMsToHString` | src/lib/utils.ts:26-28 | The label is the hour count in decimal digits, without leading zeros, followed by "h". The argument is seconds, as the board passes seconds worked. |
| `Utils.HoursOfWholeHours` | src/lib/utils.ts:27 | A whole number of hours in seconds gives exactly that many hours. |
| `Utils.HalfHourBoundary` | src/lib/utils.ts:27 | Under 1800 seconds the label is "0h", and exactly 1800 seconds gives "1h". |
| `Utils.HoursMonotone` | src/lib/utils.ts:27 | More seconds never show fewer hours. |

## Left out

- File-system reads (`fs.readdir`, `process.cwd()`) are inputs: the working directory is a parameter, and every directory's listing is part of the `Listing` value. Which failed read `Promise.all` reports is not modelled; any failure gives `None`. The consistency of a listing's `parentPath` fields with the paths read is a hypothesis (`ListingAt`), not something the builder checks.
- PDF rendering, the worker setup and resize observation in the viewer are third-party rendering and floating-point widths. The renderer's page count reaches the model only through `OnDocumentLoadSuccess`. A failed load is the absence of that call.
- BoardRoute.Get: every upstream record is taken to be either missing or well formed. `executeGET` (src/lib/jira.ts) does not check the HTTP status, so an error reply with a JSON body arrives as a record without the expected fields. The handler then reads those fields unguarded (`role?.actors.map`, `boardConfig?.location.name`, `columnConfig.columns`, `sprint?.values.map`, `user.avatarUrls['48x48']`) and throws instead of answering 200. That path is not modelled.
- The network: `executeGET` (which turns a failed fetch into `undefined`) and the `fetcher` used for SWR are replaced by `Option` inputs and the `fetchUser` function. The role request is issued even when the configuration is missing (its URL then contains "undefined"); the role is an input here, so that request is not modelled. SWR's loading and error branches are markup.
- `progressValue` is a floating-point percentage (NaN with no issues); only the whole-number fact that completed tasks never outnumber issues is stated.
- React effects and Jotai atoms as mechanisms: the shared sprint and issues are the plain fields of `BoardState`, and each effect or handler is a method.
- `cn` (class-name merging) and `formatDateString` (locale dates) wrap libraries and are not modelled.
- Utils.ConverMsToHString: the argument is a whole number of seconds. Floating-point division is not modelled: `s / 3600` is not exact in binary floating point, but `Math.round` of the quotient equals `(s + 1800) / 3600` in whole numbers for every whole `s` below 2^53. JavaScript's exponent notation for numbers of 10^21 and above is not modelled either.
- ArtifactsPage.ArtifactsRoot: the working directory is taken in the normalised form Node reports (absolute, no "." or ".." segments, no trailing separator except for "/" itself). `path.join`'s normalisation of other forms is not modelled.
- ArtifactsPage.ArtifactsPaths: stated for a working directory other than "/", as are the catalogue examples. At "/" the starting path "//public" does not occur in the artifacts path, so catalogue paths keep "/public" (RootWorkingDirectoryKeepsPublic).
- JiraBoard.SumPoints: story-point estimates are whole numbers here. The issue tracker allows fractional estimates. The sprint-issue endpoint (`src/app/api/artifacts/board/sprint/[id]/route.ts`) never fills `storyPointEstimate`, so the points shown are 0 in practice. That endpoint is not part of this model.
- Markup, styling, animation, static data and the other pages (`about`, home, header, layout, member card, metrics, `config.ts`, `next.config.mjs`) contain no logic to model.
