/**
 * The MCP server list of the input toolbar
 * (gui/src/components/mainInput/Lump/sections/mcp/MCPSection.tsx): the
 * status list kept in the configuration, the optimistic toggle with its
 * revert, deletion after a confirmation, the status dot colour, error
 * truncation and the pairing of servers with their YAML blocks. The IDE
 * requests are recorded; their answers are parameters.
 */
module McpSection {
  import opened Wrappers
  import opened Strings
  import opened Lists

  /** The connection states this file distinguishes. */
  datatype ServerStatus = Connected | Connecting | NotConnected | Failed | Authenticating | Disabled

  /** One entry of `mcpServerStatuses`, with the fields this file uses. */
  datatype McpServer = McpServer(id: string, name: string, enabled: bool, status: ServerStatus,
                                 errors: seq<string>, sourceFile: Option<string>)

  /** The list with only the entries of that id changed by `f`; `Array.map` keeps length and order. */
  function MapWhere(servers: seq<McpServer>, id: string, f: McpServer -> McpServer): (r: seq<McpServer>)
    ensures |r| == |servers|
    ensures forall i | 0 <= i < |r| :: r[i] == (if servers[i].id == id then f(servers[i]) else servers[i])
  {
    seq(|servers|, i requires 0 <= i < |servers| => if servers[i].id == id then f(servers[i]) else servers[i])
  }

  /** `updateMCPServerStatus`: the entry of that id takes the status; nothing else changes. */
  function SetStatus(servers: seq<McpServer>, id: string, status: ServerStatus): (r: seq<McpServer>)
    ensures |r| == |servers|
    ensures forall i | 0 <= i < |r| ::
      (r[i].id == servers[i].id && r[i].name == servers[i].name
       && r[i].enabled == servers[i].enabled && r[i].errors == servers[i].errors
       && r[i].sourceFile == servers[i].sourceFile)
    ensures forall i | 0 <= i < |r| :: r[i].status == (if servers[i].id == id then status else servers[i].status)
  {
    MapWhere(servers, id, (s: McpServer) => s.(status := status))
  }

  /** The entry of that id takes both `enabled` and the status. */
  function SetEntry(servers: seq<McpServer>, id: string, enabled: bool, status: ServerStatus): (r: seq<McpServer>)
    ensures |r| == |servers|
    ensures forall i | 0 <= i < |r| ::
      (r[i].id == servers[i].id && r[i].name == servers[i].name
       && r[i].errors == servers[i].errors && r[i].sourceFile == servers[i].sourceFile)
    ensures forall i | 0 <= i < |r| && servers[i].id == id :: r[i].enabled == enabled && r[i].status == status
    ensures forall i | 0 <= i < |r| && servers[i].id != id :: r[i] == servers[i]
  {
    MapWhere(servers, id, (s: McpServer) => s.(enabled := enabled, status := status))
  }

  /** The status a toggle shows at once: connecting when switched on, disabled when switched off. */
  function ToggledStatus(enabled: bool): (s: ServerStatus)
    ensures s == Connecting <==> enabled
    ensures s == Disabled <==> !enabled
  {
    if enabled then Connecting else Disabled
  }

  /** The optimistic update of `onToggle`. */
  function Toggled(servers: seq<McpServer>, server: McpServer): (r: seq<McpServer>)
    ensures |r| == |servers|
    ensures forall i | 0 <= i < |r| && servers[i].id == server.id ::
      r[i].enabled == !server.enabled && r[i].status == ToggledStatus(!server.enabled)
    ensures forall i | 0 <= i < |r| && servers[i].id != server.id :: r[i] == servers[i]
  {
    SetEntry(servers, server.id, !server.enabled, ToggledStatus(!server.enabled))
  }

  /** The revert of `onToggle`, built from the list as it was when the toggle began. */
  function Reverted(servers: seq<McpServer>, server: McpServer): (r: seq<McpServer>)
    ensures |r| == |servers|
    ensures forall i | 0 <= i < |r| && servers[i].id != server.id :: r[i] == servers[i]
  {
    SetEntry(servers, server.id, server.enabled, server.status)
  }

  /** The row's `server` is current: every entry with its id shows its `enabled` and status. */
  predicate IsCurrent(servers: seq<McpServer>, server: McpServer) {
    forall i | 0 <= i < |servers| && servers[i].id == server.id ::
      servers[i].enabled == server.enabled && servers[i].status == server.status
  }

  /** A failed toggle of a current row gives back exactly the list from before the toggle. */
  lemma RevertRestores(servers: seq<McpServer>, server: McpServer)
    requires IsCurrent(servers, server)
    ensures Reverted(servers, server) == servers
  {
    var r := Reverted(servers, server);
    forall i | 0 <= i < |servers|
      ensures r[i] == servers[i]
    {
      if servers[i].id == server.id {
        assert r[i].enabled == servers[i].enabled && r[i].status == servers[i].status;
      }
    }
  }

  /** Reverting on top of the optimistic list (rather than the old one) would end in the same place. */
  lemma RevertUndoesToggle(servers: seq<McpServer>, server: McpServer)
    requires IsCurrent(servers, server)
    ensures SetEntry(Toggled(servers, server), server.id, server.enabled, server.status) == servers
  {
    var t := Toggled(servers, server);
    var r := SetEntry(t, server.id, server.enabled, server.status);
    forall i | 0 <= i < |servers|
      ensures r[i] == servers[i]
    {
      assert t[i].id == servers[i].id;
      if servers[i].id == server.id {
        assert r[i].enabled == servers[i].enabled && r[i].status == servers[i].status;
      }
    }
  }

  /** The `filter` condition of `onDelete`. */
  function OtherServer(id: string): McpServer -> bool {
    (s: McpServer) => s.id != id
  }

  /** The list after a deletion: every entry of that id goes, the others stay in order. */
  function Deleted(servers: seq<McpServer>, id: string): (r: seq<McpServer>)
    ensures forall s | s in r :: s in servers && s.id != id
    ensures forall s | s in servers && s.id != id :: s in r
    ensures forall s | s in servers && s.id != id :: multiset(r)[s] == multiset(servers)[s]
    ensures IsSublist(r, servers)
  {
    FilterIsSublist(servers, OtherServer(id));
    FilterCounts(servers, OtherServer(id));
    Filter(servers, OtherServer(id))
  }

  /** Deleting an id no entry has leaves the list as it was. */
  lemma DeleteAbsentIsNoOp(servers: seq<McpServer>, id: string)
    requires forall i | 0 <= i < |servers| :: servers[i].id != id
    ensures Deleted(servers, id) == servers
  {
    FilterAll(servers, OtherServer(id));
  }

  const Gray := "#9ca3af"
  const Green := "#22c55e"
  const Yellow := "#eab308"
  const Stone := "#78716c"
  const Red := "#ef4444"

  /** The status dot: gray when switched off, then by status, red for an error or authentication. */
  function StatusColor(enabled: bool, status: ServerStatus): (c: string)
    ensures c == Gray <==> !enabled || status == Disabled
    ensures c == Green <==> enabled && status == Connected
    ensures c == Yellow <==> enabled && status == Connecting
    ensures c == Stone <==> enabled && status == NotConnected
    ensures c == Red <==> enabled && (status == Failed || status == Authenticating)
  {
    if !enabled then Gray
    else match status
      case Connected => Green
      case Connecting => Yellow
      case NotConnected => Stone
      case Disabled => Gray
      case _ => Red
  }

  /** The longest error shown in full. */
  const MaxErrorLength: nat := 150

  /** An error longer than 150 characters is cut to its first 150 followed by "...". */
  function TruncateError(error: string): (r: string)
    ensures |error| <= MaxErrorLength ==> r == error
    ensures |error| > MaxErrorLength ==>
      (|r| == MaxErrorLength + 3 && StartsWith(error, r[..MaxErrorLength]) && EndsWith(r, "..."))
    ensures |r| <= MaxErrorLength + 3
  {
    if |error| > MaxErrorLength then error[..MaxErrorLength] + "..." else error
  }

  /** The tooltip stays open longer (1500 ms) exactly when some error is cut. */
  function TooltipDelay(errors: seq<string>): (ms: nat)
    ensures ms == 1500 <==> exists i | 0 <= i < |errors| :: |errors[i]| > MaxErrorLength
    ensures ms == 0 <==> forall i | 0 <= i < |errors| :: |errors[i]| <= MaxErrorLength
  {
    if errors == [] then 0
    else if |errors[0]| > MaxErrorLength then 1500
    else
      var rest := TooltipDelay(errors[1..]);
      assert forall i | 1 <= i < |errors| :: errors[i] == errors[1..][i - 1];
      rest
  }

  /**
   * `mergedBlocks`: each server (none when the list is missing) paired
   * with the YAML block at the same position, when the profile has YAML
   * and that position exists.
   */
  function MergedBlocks<Y>(servers: Option<seq<McpServer>>, parsed: Option<seq<Y>>): (r: seq<(McpServer, Option<Y>)>)
    ensures servers.None? ==> r == []
    ensures servers.Some? ==> |r| == |servers.value|
    ensures servers.Some? ==> forall i | 0 <= i < |r| ::
      r[i].0 == servers.value[i]
      && r[i].1 == (if parsed.Some? && i < |parsed.value| then Some(parsed.value[i]) else None)
  {
    var list := servers.GetOr([]);
    seq(|list|, i requires 0 <= i < |list| =>
      (list[i], if parsed.Some? && i < |parsed.value| then Some(parsed.value[i]) else None))
  }

  /** A request to the IDE. */
  datatype IdeRequest = StartAuthentication(id: string) | RemoveAuthentication(id: string)
                      | ReloadServer(id: string) | ToggleServer(id: string) | DeleteFile(path: string)

  datatype ToastLevel = InfoToast | WarningToast | ErrorToast

  /** A notification shown by the IDE. */
  datatype IdeToast = IdeToast(level: ToastLevel, text: string)

  /** The confirmation button that deletes. */
  const DeleteChoice := "삭제"

  /** `sourceFile` as JavaScript tests it: present and not empty. */
  predicate HasSourceFile(server: McpServer) {
    server.sourceFile.Some? && server.sourceFile.value != ""
  }

  /**
   * The status list held in the configuration, and what the rows ask of
   * the IDE. Each handler reads the list as it was when it began, as the
   * rows' closures do.
   */
  class McpServerList {
    var servers: seq<McpServer>
    var requests: seq<IdeRequest>
    var toasts: seq<IdeToast>

    constructor(initial: seq<McpServer>)
      ensures servers == initial && requests == [] && toasts == []
    {
      servers := initial;
      requests := [];
      toasts := [];
    }

    /** `onAuthenticate`: show "authenticating" and ask the IDE to start. */
    method OnAuthenticate(server: McpServer)
      modifies this
      ensures servers == SetStatus(old(servers), server.id, Authenticating)
      ensures requests == old(requests) + [StartAuthentication(server.id)] && toasts == old(toasts)
    {
      servers := SetStatus(servers, server.id, Authenticating);
      requests := requests + [StartAuthentication(server.id)];
    }

    /** `onRemoveAuth`: also shows "authenticating" while the IDE logs out. */
    method OnRemoveAuth(server: McpServer)
      modifies this
      ensures servers == SetStatus(old(servers), server.id, Authenticating)
      ensures requests == old(requests) + [RemoveAuthentication(server.id)] && toasts == old(toasts)
    {
      servers := SetStatus(servers, server.id, Authenticating);
      requests := requests + [RemoveAuthentication(server.id)];
    }

    /** `onRefresh`: show "connecting" and ask for a reload. */
    method OnRefresh(server: McpServer)
      modifies this
      ensures servers == SetStatus(old(servers), server.id, Connecting)
      ensures requests == old(requests) + [ReloadServer(server.id)] && toasts == old(toasts)
    {
      servers := SetStatus(servers, server.id, Connecting);
      requests := requests + [ReloadServer(server.id)];
    }

    /**
     * `onToggle`: flip the entry at once, ask the IDE, and on failure put
     * back what the row showed. A failed toggle of a current row leaves
     * the list as it was.
     */
    method OnToggle(server: McpServer, toggleSucceeded: bool)
      modifies this
      ensures toggleSucceeded ==> servers == Toggled(old(servers), server)
      ensures !toggleSucceeded ==> servers == Reverted(old(servers), server)
      ensures !toggleSucceeded && IsCurrent(old(servers), server) ==> servers == old(servers)
      ensures requests == old(requests) + [ToggleServer(server.id)] && toasts == old(toasts)
    {
      var config := servers;
      servers := Toggled(config, server);
      requests := requests + [ToggleServer(server.id)];
      if !toggleSucceeded {
        servers := Reverted(config, server);
        if IsCurrent(config, server) {
          RevertRestores(config, server);
        }
      }
    }

    /**
     * `onDelete`: without a source file, an error notice. Otherwise a
     * confirmation; any answer but "삭제" stops. Then the file is deleted;
     * if that succeeds the entry leaves the list and a notice follows, if
     * it fails an error notice is shown and the list is kept.
     */
    method OnDelete(server: McpServer, choice: string, deleteError: Option<string>)
      modifies this
      ensures !HasSourceFile(server) ==>
        servers == old(servers) && requests == old(requests)
        && toasts == old(toasts) + [IdeToast(ErrorToast, "소스 파일을 찾을 수 없습니다.")]
      ensures HasSourceFile(server) && choice != DeleteChoice ==>
        servers == old(servers) && requests == old(requests)
        && toasts == old(toasts) + [IdeToast(WarningToast, ConfirmText(server))]
      ensures HasSourceFile(server) && choice == DeleteChoice ==>
        requests == old(requests) + [DeleteFile(server.sourceFile.value)]
      ensures HasSourceFile(server) && choice == DeleteChoice && deleteError.None? ==>
        servers == Deleted(old(servers), server.id)
        && toasts == old(toasts) + [IdeToast(WarningToast, ConfirmText(server)),
                                    IdeToast(InfoToast, "MCP 서버 '" + server.name + "'이(가) 삭제되었습니다.")]
      ensures HasSourceFile(server) && choice == DeleteChoice && deleteError.Some? ==>
        servers == old(servers)
        && toasts == old(toasts) + [IdeToast(WarningToast, ConfirmText(server)),
                                    IdeToast(ErrorToast, "삭제 실패: " + deleteError.value)]
    {
      if HasSourceFile(server) {
        toasts := toasts + [IdeToast(WarningToast, ConfirmText(server))];
        if choice != DeleteChoice {
          return;
        }
        requests := requests + [DeleteFile(server.sourceFile.value)];
        if deleteError.Some? {
          toasts := toasts + [IdeToast(ErrorToast, "삭제 실패: " + deleteError.value)];
          return;
        }
        servers := Deleted(servers, server.id);
        toasts := toasts + [IdeToast(InfoToast, "MCP 서버 '" + server.name + "'이(가) 삭제되었습니다.")];
      } else {
        toasts := toasts + [IdeToast(ErrorToast, "소스 파일을 찾을 수 없습니다.")];
      }
    }
  }

  /** The confirmation question. */
  function ConfirmText(server: McpServer): string {
    "MCP 서버 '" + server.name + "'을(를) 삭제하시겠습니까?"
  }
}
