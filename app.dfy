/** The page logic of src/App.tsx: the gate in front of the dashboard, the
    calendar page's choice of calendars and its embed parameters, and the
    attendance page's lookup of the latest PDF in the attendance folder.
    Remote calls are arguments of type `Reply`. */
module App {
  import opened Wrappers

  // ---------------------------------------------------------------------
  // Gate and routes (AppContent)
  // ---------------------------------------------------------------------

  /** The pages the router serves. */
  datatype Page = Overview | CalendarView | TasksView | Documents | NotebookLM | AttendanceView | Colab

  /** What the router does with a path: show a page, or redirect. */
  datatype Route = Show(page: Page) | RedirectTo(path: string)

  /** What AppContent renders. */
  datatype Screen = Initializing | Setup(ipWarning: bool) | Dashboard(route: Route)

  /** The path each page is mounted at. */
  function PathOf(p: Page): string {
    match p
    case Overview => "/"
    case CalendarView => "/calendar"
    case TasksView => "/tasks"
    case Documents => "/documents"
    case NotebookLM => "/notebooklm"
    case AttendanceView => "/attendance"
    case Colab => "/colab"
  }

  /** The route table: a mounted path shows its page, any other path
      redirects to the overview. */
  function RouteFor(path: string): (r: Route)
    ensures r.Show? ==> PathOf(r.page) == path
    ensures r.RedirectTo? <==> forall p: Page :: PathOf(p) != path
    ensures r.RedirectTo? ==> r.path == PathOf(Overview)
  {
    if path == "/" then Show(Overview)
    else if path == "/calendar" then Show(CalendarView)
    else if path == "/tasks" then Show(TasksView)
    else if path == "/documents" then Show(Documents)
    else if path == "/notebooklm" then Show(NotebookLM)
    else if path == "/attendance" then Show(AttendanceView)
    else if path == "/colab" then Show(Colab)
    else RedirectTo("/")
  }

  /** Every page is reached at its own path, and a redirect always lands on
      a page. */
  lemma RouteRoundTrip(p: Page, path: string)
    ensures RouteFor(PathOf(p)) == Show(p)
    ensures RouteFor(path).RedirectTo? ==> RouteFor(RouteFor(path).path) == Show(Overview)
  {
  }

  /** A JavaScript-truthy client id: present and non-empty. */
  function IsTruthy(clientId: Option<string>): (truthy: bool)
    ensures truthy <==> clientId != None && clientId != Some("")
  {
    clientId.Some? && clientId.value != ""
  }

  /** The page is not served from a loopback host name. */
  function IsIpAccess(hostname: string): (remote: bool)
    ensures remote <==> hostname !in {"localhost", "127.0.0.1"}
  {
    hostname != "localhost" && hostname != "127.0.0.1"
  }

  /** AppContent: the loading view until the session is loaded, then the
      setup view while no client id is configured (warning when not on a
      loopback host name), then the routes. */
  function Gate(isLoaded: bool, clientId: Option<string>, hostname: string, path: string): (s: Screen)
    ensures s.Initializing? <==> !isLoaded
    ensures s.Setup? <==> isLoaded && !IsTruthy(clientId)
    ensures s.Setup? ==> (s.ipWarning <==> hostname !in {"localhost", "127.0.0.1"})
    ensures s.Dashboard? ==> s.route == RouteFor(path)
  {
    if !isLoaded then Initializing
    else if !IsTruthy(clientId) then Setup(IsIpAccess(hostname))
    else Dashboard(RouteFor(path))
  }

  // ---------------------------------------------------------------------
  // Calendar page
  // ---------------------------------------------------------------------

  /** One entry of the user's calendar list. */
  datatype CalendarListEntry = CalendarListEntry(id: string, selected: bool)

  /** `items.filter(item => item.selected).map(item => item.id)`. */
  function SelectedIds(items: seq<CalendarListEntry>): (ids: seq<string>)
    ensures |ids| <= |items|
    ensures ids == [] <==> forall i :: 0 <= i < |items| ==> !items[i].selected
    ensures forall k :: 0 <= k < |ids| ==>
      exists i :: 0 <= i < |items| && items[i].selected && items[i].id == ids[k]
    decreases |items|
  {
    if items == [] then []
    else
      var rest := SelectedIds(items[1..]);
      assert forall k :: 0 <= k < |rest| ==>
        exists i :: 0 <= i < |items| && items[i].selected && items[i].id == rest[k] by {
        forall k | 0 <= k < |rest|
          ensures exists i :: 0 <= i < |items| && items[i].selected && items[i].id == rest[k]
        {
          var i :| 0 <= i < |items[1..]| && items[1..][i].selected && items[1..][i].id == rest[k];
          assert items[i + 1] == items[1..][i];
        }
      }
      if items[0].selected then [items[0].id] + rest else rest
  }

  /** Selection keeps input order: it distributes over concatenation. */
  lemma {:induction false} SelectedIdsAppend(a: seq<CalendarListEntry>, b: seq<CalendarListEntry>)
    ensures SelectedIds(a + b) == SelectedIds(a) + SelectedIds(b)
    decreases |a|
  {
    if a == [] {
      assert a + b == b;
    } else {
      assert (a + b)[1..] == a[1..] + b;
      SelectedIdsAppend(a[1..], b);
    }
  }

  const CalendarEmbedBase: string := "https://calendar.google.com/calendar/embed"

  /** The fixed display parameters appended after the calendars. */
  const DisplayParams: seq<(string, string)> :=
    [("ctz", "Asia/Tokyo"), ("showTitle", "0"), ("showNav", "1"),
     ("showPrint", "0"), ("showTabs", "1"), ("showCalendars", "1")]

  /** The embed query as an ordered list of pairs. */
  function EmbedQuery(ids: seq<string>): (q: seq<(string, string)>)
    ensures |q| == |ids| + |DisplayParams|
    ensures forall k :: 0 <= k < |ids| ==> q[k] == ("src", ids[k])
    ensures q[|ids|..] == DisplayParams
    decreases |ids|
  {
    if ids == [] then DisplayParams
    else [("src", ids[0])] + EmbedQuery(ids[1..])
  }

  /** The parameter list built by one `params.append('src', id)` per id and
      the six display appends. */
  method EmbedParams(ids: seq<string>) returns (params: seq<(string, string)>)
    ensures params == EmbedQuery(ids)
  {
    params := [];
    for i := 0 to |ids|
      invariant |params| == i
      invariant forall k :: 0 <= k < i ==> params[k] == ("src", ids[k])
    {
      params := params + [("src", ids[i])];
    }
    params := params + [("ctz", "Asia/Tokyo")];
    params := params + [("showTitle", "0")];
    params := params + [("showNav", "1")];
    params := params + [("showPrint", "0")];
    params := params + [("showTabs", "1")];
    params := params + [("showCalendars", "1")];
    assert params[|ids|..] == DisplayParams;
  }

  /** The embed address, kept as its base and query pairs. */
  datatype EmbedUrl = EmbedUrl(base: string, query: seq<(string, string)>)

  /** `calendarUrl`: no address without calendars. */
  function CalendarUrl(ids: seq<string>): (u: Option<EmbedUrl>)
    ensures u.None? <==> ids == []
    ensures u.Some? ==> u.value.base == CalendarEmbedBase && u.value.query == EmbedQuery(ids)
  {
    if |ids| > 0 then Some(EmbedUrl(CalendarEmbedBase, EmbedQuery(ids))) else None
  }

  /** The one remote call of the calendar page: `calendarList.list()`. */
  datatype CalendarRequest = ListCalendarList

  class CalendarPage {
    var calendarIds: seq<string>
    var isSyncing: bool

    constructor ()
      ensures calendarIds == [] && !isSyncing
    {
      calendarIds := [];
      isSyncing := false;
    }

    /** `fetchCalendarList`: show the selected calendars; with none selected
        fall back to the signed-in user's address; on a failed listing use
        that address if there is a user, else keep the current ids.
        `user` is the signed-in user's e-mail address, if any. */
    method FetchCalendarList(user: Option<string>, reply: Reply<seq<CalendarListEntry>>)
      returns (sent: seq<CalendarRequest>)
      modifies this
      ensures sent == [ListCalendarList]
      ensures !isSyncing
      ensures reply.Ok? && SelectedIds(reply.value) != [] ==> calendarIds == SelectedIds(reply.value)
      ensures reply.Ok? && SelectedIds(reply.value) == [] ==>
        calendarIds == if user.Some? then [user.value] else []
      ensures reply.Failed? ==>
        calendarIds == if user.Some? then [user.value] else old(calendarIds)
    {
      isSyncing := true;
      sent := [ListCalendarList];
      match reply {
        case Ok(items) =>
          var ids := SelectedIds(items);
          if |ids| == 0 && user.Some? {
            ids := ids + [user.value];
          }
          calendarIds := ids;
        case Failed(_) =>
          if user.Some? {
            calendarIds := [user.value];
          }
      }
      isSyncing := false;
    }
  }

  // ---------------------------------------------------------------------
  // Attendance page
  // ---------------------------------------------------------------------

  /** A file or folder as a Drive listing returns it. */
  datatype DriveFile = DriveFile(id: string, name: string)

  /** A Drive `files.list` call. The search query `q` is kept as its
      clauses: an optional parent folder (`'<id>' in parents`), an optional
      exact name (`name = '<name>'`), the MIME type and `trashed = false`.
      Then come the optional `orderBy` and `pageSize` parameters. */
  datatype DriveQuery = DriveQuery(parent: Option<string>, name: Option<string>, mimeType: string,
                                   trashed: bool, orderBy: Option<string>, pageSize: Option<nat>)

  const FolderMime: string := "application/vnd.google-apps.folder"
  const PdfMime: string := "application/pdf"

  /** The listing of the non-trashed folders with a given name, anywhere. */
  function FolderNamed(name: string): (query: DriveQuery)
    ensures query.name == Some(name) && query.parent.None?
    ensures query.mimeType == FolderMime && !query.trashed
    ensures query.orderBy.None? && query.pageSize.None?
  {
    DriveQuery(None, Some(name), FolderMime, false, None, None)
  }

  /** The listing of the most recently modified non-trashed PDF inside a
      folder: newest first, one result. */
  function LatestPdfIn(folderId: string): (query: DriveQuery)
    ensures query.parent == Some(folderId) && query.name.None?
    ensures query.mimeType == PdfMime && !query.trashed
    ensures query.orderBy == Some("modifiedTime desc") && query.pageSize == Some(1)
  {
    DriveQuery(Some(folderId), None, PdfMime, false, Some("modifiedTime desc"), Some(1))
  }

  /** The attendance folder's name (kinmuhyo, "attendance sheet"). */
  const AttendanceFolder: string := "\U{52E4}\U{52D9}\U{8868}"
  const FolderMissing: string := "Folder '" + AttendanceFolder + "' not found in your Google Drive."
  const NoPdf: string := "No PDF files found in the '" + AttendanceFolder + "' folder."
  const LoadFailed: string := "Failed to load the attendance sheet."

  /** `err.message || "Failed to load the attendance sheet."` */
  function ErrorText(message: string): (text: string)
    ensures text != ""
    ensures message != "" ==> text == message
    ensures message == "" ==> text == LoadFailed
  {
    if message != "" then message else LoadFailed
  }

  class AttendancePage {
    var fileId: Option<string>
    var loading: bool
    var error: Option<string>

    constructor ()
      ensures fileId.None? && !loading && error.None?
    {
      fileId := None;
      loading := false;
      error := None;
    }

    /** `fetchLatestAttendancePdf`: find the attendance folder, then its
        latest PDF. A missing folder or file, or a failed listing, sets the
        error and keeps the previous file id. Returns the listings issued. */
    method FetchLatestAttendancePdf(folders: Reply<seq<DriveFile>>, files: Reply<seq<DriveFile>>)
      returns (sent: seq<DriveQuery>)
      modifies this
      ensures !loading
      ensures |sent| >= 1 && sent[0] == FolderNamed(AttendanceFolder)
      ensures folders.Failed? ==>
        sent == [FolderNamed(AttendanceFolder)] && error == Some(ErrorText(folders.message)) &&
        fileId == old(fileId)
      ensures folders.Ok? && folders.value == [] ==>
        sent == [FolderNamed(AttendanceFolder)] && error == Some(FolderMissing) && fileId == old(fileId)
      ensures folders.Ok? && folders.value != [] ==>
        sent == [FolderNamed(AttendanceFolder), LatestPdfIn(folders.value[0].id)]
      ensures folders.Ok? && folders.value != [] && files.Failed? ==>
        error == Some(ErrorText(files.message)) && fileId == old(fileId)
      ensures folders.Ok? && folders.value != [] && files.Ok? && files.value == [] ==>
        error == Some(NoPdf) && fileId == old(fileId)
      ensures folders.Ok? && folders.value != [] && files.Ok? && files.value != [] ==>
        error.None? && fileId == Some(files.value[0].id)
    {
      loading := true;
      error := None;
      sent := [FolderNamed(AttendanceFolder)];
      match folders {
        case Failed(m) =>
          error := Some(ErrorText(m));
        case Ok(found) =>
          if |found| == 0 {
            error := Some(ErrorText(FolderMissing));
          } else {
            var folderId := found[0].id;
            sent := sent + [LatestPdfIn(folderId)];
            match files {
              case Failed(m) =>
                error := Some(ErrorText(m));
              case Ok(pdfs) =>
                if |pdfs| == 0 {
                  error := Some(ErrorText(NoPdf));
                } else {
                  fileId := Some(pdfs[0].id);
                }
            }
          }
      }
      loading := false;
    }
  }
}
