/**
 * cmd/stockterm/main.go: the command-line front end. `Dispatch` is the
 * switch on the command word; `ExecuteCommand` carries out the chosen
 * action against the watchlist service, the fetch oracle and the editor.
 *
 * What a command does is summarised as an `Effect`: its error, the chart
 * responses it renders, the tickers it requests from the network and the
 * watchlist file content it leaves behind. `Execute` is that effect as a
 * function of the state before the command.
 */
module Cli {
  import opened Wrappers
  import opened Strings
  import opened Config
  import opened Watchlist
  import opened Editor
  import opened Api

  datatype CliError =
    | MissingTicker                       // "missing ticker argument"
    | InvalidCommand(command: string)     // "invalid command: '...'"
    | GetWatchlistFailed(cause: IoError)  // "error getting watchlist"
    | UpdateFailed(updateError: Watchlist.Error) // "error updating watchlist"

  /** The action a command line selects. */
  datatype Action =
    | GetPrices(tickersArg: string)
    | GetAll
    | EditList
    | AddTickers(tickersArg: string)
    | RemoveTickers(tickersArg: string)
    | Help
    | Version

  /** executeCommand's switch: the command word and its arguments. */
  function Dispatch(command: string, args: seq<string>): Result<Action, CliError> {
    if command == "get" then (if |args| < 1 then Err(MissingTicker) else Ok(GetPrices(args[0])))
    else if command == "get-all" then Ok(GetAll)
    else if command == "list" then Ok(EditList)
    else if command == "add" then (if |args| < 1 then Err(MissingTicker) else Ok(AddTickers(args[0])))
    else if command == "remove" then (if |args| < 1 then Err(MissingTicker) else Ok(RemoveTickers(args[0])))
    else if command == "help" then Ok(Help)
    else if command == "version" then Ok(Version)
    else Err(InvalidCommand(command))
  }

  predicate NeedsTicker(command: string) {
    command == "get" || command == "add" || command == "remove"
  }

  predicate Known(command: string) {
    NeedsTicker(command) || command == "get-all" || command == "list" || command == "help" || command == "version"
  }

  /**
   * "get", "add" and "remove" need an argument and take the first one;
   * the other known commands need none; any other word is invalid.
   */
  lemma DispatchFacts(command: string, args: seq<string>)
    ensures NeedsTicker(command) && args == [] ==> Dispatch(command, args) == Err(MissingTicker)
    ensures NeedsTicker(command) && args != [] ==> Dispatch(command, args).Ok? && Dispatch(command, args).value.tickersArg == args[0]
    ensures Known(command) && !NeedsTicker(command) ==> Dispatch(command, args).Ok?
    ensures !Known(command) ==> Dispatch(command, args) == Err(InvalidCommand(command))
    ensures Dispatch(command, args).Ok? <==> Known(command) && (NeedsTicker(command) ==> args != [])
  {
  }

  /** The trimmed, non-empty pieces, in order. */
  function TrimmedNonEmpty(pieces: seq<string>): seq<string> {
    if pieces == [] then []
    else
      var t := TrimSpace(pieces[|pieces| - 1]);
      TrimmedNonEmpty(pieces[..|pieces| - 1]) + (if t != "" then [t] else [])
  }

  lemma TrimmedNonEmptySnoc(pieces: seq<string>, i: nat)
    requires i < |pieces|
    ensures var t := TrimSpace(pieces[i]);
      TrimmedNonEmpty(pieces[..i + 1]) == TrimmedNonEmpty(pieces[..i]) + (if t != "" then [t] else [])
  {
    assert pieces[..i + 1][..i] == pieces[..i];
  }

  /** The tickers an add or remove argument names: its comma-separated pieces, trimmed, empty ones skipped. */
  function CliTickers(tickersArg: string): seq<string> {
    TrimmedNonEmpty(Split(tickersArg))
  }

  /** Every kept piece is a trimmed piece of the input, non-empty and free of white space at its ends. */
  lemma {:induction false} TrimmedNonEmptyFrom(pieces: seq<string>)
    ensures forall x :: x in TrimmedNonEmpty(pieces) ==>
      x != "" && Trimmed(x) && exists i :: 0 <= i < |pieces| && TrimSpace(pieces[i]) == x
  {
    if pieces != [] {
      var init := pieces[..|pieces| - 1];
      TrimmedNonEmptyFrom(init);
      TrimSpaceTrimmed(pieces[|pieces| - 1]);
      forall x | x in TrimmedNonEmpty(pieces)
        ensures x != "" && Trimmed(x) && exists i :: 0 <= i < |pieces| && TrimSpace(pieces[i]) == x
      {
        if x in TrimmedNonEmpty(init) {
          var i :| 0 <= i < |init| && TrimSpace(init[i]) == x;
          assert pieces[i] == init[i];
        } else {
          assert TrimSpace(pieces[|pieces| - 1]) == x;
        }
      }
    }
  }

  /** Every piece whose trimmed form is not empty is kept. */
  lemma {:induction false} TrimmedNonEmptyKeeps(pieces: seq<string>)
    ensures forall i :: 0 <= i < |pieces| && TrimSpace(pieces[i]) != "" ==>
      TrimSpace(pieces[i]) in TrimmedNonEmpty(pieces)
  {
    if pieces != [] {
      var init := pieces[..|pieces| - 1];
      TrimmedNonEmptyKeeps(init);
      forall i | 0 <= i < |pieces| - 1 && TrimSpace(pieces[i]) != ""
        ensures TrimSpace(pieces[i]) in TrimmedNonEmpty(pieces)
      {
        assert pieces[i] == init[i];
      }
    }
  }

  /** The tickers of an argument are non-empty, trimmed and hold no comma. */
  lemma CliTickersFacts(tickersArg: string)
    ensures forall i :: 0 <= i < |CliTickers(tickersArg)| ==>
      CliTickers(tickersArg)[i] != "" && Storable(CliTickers(tickersArg)[i])
  {
    var pieces := Split(tickersArg);
    SplitPieces(tickersArg);
    TrimmedNonEmptyFrom(pieces);
    var l := CliTickers(tickersArg);
    forall k | 0 <= k < |l| ensures l[k] != "" && Storable(l[k]) {
      assert l[k] in l;
      var i :| 0 <= i < |pieces| && TrimSpace(pieces[i]) == l[k];
      TrimSpaceChars(pieces[i]);
    }
  }

  /** What a command did. */
  datatype Effect = Effect(
    err: Option<CliError>,
    rendered: seq<ChartResponse>,
    requested: seq<string>,
    store: Option<string>)

  /** getTickersPrice: the argument split on commas, untrimmed, fetched for one day. */
  function GetPricesEffect(net: (string, string) -> Reply, tickersArg: string, st: Option<string>): Effect {
    var tickers := Split(tickersArg);
    Effect(None, Successes(net, tickers, "1d"), tickers, st)
  }

  /** The failed load of an absent file that cannot be created. */
  function LoadFailure(path: string, st: Option<string>): Effect {
    Effect(Some(GetWatchlistFailed(CreateFileFailed(path))), [], [], st)
  }

  /** getWatchlistPrice: load, stop on an empty list, else fetch every entry. */
  function GetAllEffect(net: (string, string) -> Reply, st: Option<string>, path: string, writable: bool): Effect {
    if st.None? && !writable then LoadFailure(path, st)
    else
      var l := Listed(st);
      if l == [] then Effect(None, [], [], Created(st))
      else Effect(None, Successes(net, l, "1d"), l, Created(st))
  }

  /** displayWatchlist: load, stop on an empty list, else edit and store the result if saved. */
  function ListEffect(st: Option<string>, path: string, writable: bool, session: seq<Msg>, runFails: bool): Effect {
    if st.None? && !writable then LoadFailure(path, st)
    else
      var l := Listed(st);
      if l == [] then Effect(None, [], [], Created(st))
      else
        var edited := EditorResult(l, session, runFails);
        if !edited.1 then Effect(None, [], [], Created(st))
        else
          var s := UpdateStep(Created(st), path, writable, edited.0);
          Effect(if s.outcome.Fail? then Some(UpdateFailed(s.outcome.error)) else None, [], [], s.store)
  }

  /** executeCommand's effect. */
  function Execute(
    st: Option<string>, path: string, writable: bool,
    net: (string, string) -> Reply, session: seq<Msg>, runFails: bool,
    command: string, args: seq<string>): Effect
  {
    match Dispatch(command, args)
    case Err(e) => Effect(Some(e), [], [], st)
    case Ok(action) =>
      match action
      case GetPrices(arg) => GetPricesEffect(net, arg, st)
      case GetAll => GetAllEffect(net, st, path, writable)
      case EditList => ListEffect(st, path, writable, session, runFails)
      case AddTickers(arg) => Effect(None, [], [], AddAll(st, path, writable, CliTickers(arg)))
      case RemoveTickers(arg) => Effect(None, [], [], RemoveAll(st, path, writable, CliTickers(arg)))
      case Help => Effect(None, [], [], st)
      case Version => Effect(None, [], [], st)
  }

  /** A command refused at dispatch reports its error and does nothing else. */
  lemma RefusedCommandDoesNothing(
    st: Option<string>, path: string, writable: bool,
    net: (string, string) -> Reply, session: seq<Msg>, runFails: bool,
    command: string, args: seq<string>)
    requires (NeedsTicker(command) && args == []) || !Known(command)
    ensures var e := Execute(st, path, writable, net, session, runFails, command, args);
      && e.err.Some? && e.rendered == [] && e.requested == [] && e.store == st
      && (NeedsTicker(command) ==> e.err == Some(MissingTicker))
      && (!Known(command) ==> e.err == Some(InvalidCommand(command)))
  {
    DispatchFacts(command, args);
  }

  /** "help" and "version" succeed and change nothing. */
  lemma HelpAndVersion(
    st: Option<string>, path: string, writable: bool,
    net: (string, string) -> Reply, session: seq<Msg>, runFails: bool,
    command: string, args: seq<string>)
    requires command == "help" || command == "version"
    ensures Execute(st, path, writable, net, session, runFails, command, args) == Effect(None, [], [], st)
  {
  }

  /** "get-all" on an empty watchlist succeeds without requesting anything. */
  lemma GetAllEmptyFetchesNothing(
    st: Option<string>, path: string, writable: bool,
    net: (string, string) -> Reply, session: seq<Msg>, runFails: bool, args: seq<string>)
    requires st.Some? || writable
    requires Listed(st) == []
    ensures Execute(st, path, writable, net, session, runFails, "get-all", args) == Effect(None, [], [], Created(st))
  {
  }

  /**
   * "get-all" on a non-empty watchlist requests every entry, in order, and
   * renders the successes; it never fails once the list is loaded.
   */
  lemma GetAllFetchesWatchlist(
    st: Option<string>, path: string, writable: bool,
    net: (string, string) -> Reply, session: seq<Msg>, runFails: bool, args: seq<string>)
    requires st.Some? || writable
    ensures var e := Execute(st, path, writable, net, session, runFails, "get-all", args);
      && e.err == None
      && e.requested == Listed(st)
      && e.rendered == Successes(net, Listed(st), "1d")
      && |e.rendered| <= |Listed(st)|
  {
    SuccessesBound(net, Listed(st), "1d");
  }

  /** "list" changes the stored list only when the editor reports that it saved. */
  lemma ListUpdatesOnlyWhenSaved(
    st: Option<string>, path: string, writable: bool,
    net: (string, string) -> Reply, session: seq<Msg>, runFails: bool, args: seq<string>)
    requires st.Some? || writable
    ensures var e := Execute(st, path, writable, net, session, runFails, "list", args);
      var edited := EditorResult(Listed(st), session, runFails);
      && (Listed(st) == [] || !edited.1 ==> e == Effect(None, [], [], Created(st)))
      && (Listed(st) != [] && edited.1 ==>
            e.store == UpdateStep(Created(st), path, writable, edited.0).store
            && (e.err.None? <==> writable))
      && e.requested == []
  {
  }

  /** "add" and "remove" always succeed and apply each ticker of the argument in order. */
  lemma AddRemoveNeverFail(
    st: Option<string>, path: string, writable: bool,
    net: (string, string) -> Reply, session: seq<Msg>, runFails: bool,
    command: string, args: seq<string>)
    requires command == "add" || command == "remove"
    requires args != []
    ensures var e := Execute(st, path, writable, net, session, runFails, command, args);
      && e.err == None && e.requested == []
      && e.store == (if command == "add" then AddAll(st, path, writable, CliTickers(args[0]))
                     else RemoveAll(st, path, writable, CliTickers(args[0])))
  {
  }

  /**
   * Because the argument is split on commas first, the tickers "add" hands
   * to the service hold no comma, so every add and remove command keeps
   * the stored list sorted and duplicate-free.
   */
  lemma CommandsKeepInvariant(
    st: Option<string>, path: string, writable: bool,
    net: (string, string) -> Reply, session: seq<Msg>, runFails: bool,
    command: string, args: seq<string>)
    requires SortedUnique(st)
    requires command != "list"
    ensures SortedUnique(Execute(st, path, writable, net, session, runFails, command, args).store)
  {
    if (command == "add" || command == "remove") && args != [] {
      AddRemoveNeverFail(st, path, writable, net, session, runFails, command, args);
      if command == "add" {
        CliTickersFacts(args[0]);
        AddAllKeepsInvariant(st, path, writable, CliTickers(args[0]));
      } else {
        RemoveAllKeepsInvariant(st, path, writable, CliTickers(args[0]));
      }
    } else {
      OtherCommandsKeepList(st, path, writable, net, session, runFails, command, args);
      assert Listed(Created(st)) == Listed(st);
    }
  }

  /** Commands other than "add", "remove" and "list" at most create the empty file. */
  lemma OtherCommandsKeepList(
    st: Option<string>, path: string, writable: bool,
    net: (string, string) -> Reply, session: seq<Msg>, runFails: bool,
    command: string, args: seq<string>)
    requires command != "list"
    requires !((command == "add" || command == "remove") && args != [])
    ensures var e := Execute(st, path, writable, net, session, runFails, command, args);
      e.store == st || e.store == Created(st)
  {
  }

  /** getTickersPrice. */
  method GetTickersPrice(net: (string, string) -> Reply, tickersArg: string)
    returns (err: Option<CliError>, rendered: seq<ChartResponse>, requested: seq<string>)
    ensures Effect(err, rendered, requested, None) == GetPricesEffect(net, tickersArg, None)
  {
    var tickers := Split(tickersArg);
    var responses, fetchErr := FetchMultipleStocks(net, tickers, "1d");
    return None, responses, tickers;
  }

  /** getWatchlistPrice. */
  method GetWatchlistPrice(svc: Service, net: (string, string) -> Reply)
    returns (err: Option<CliError>, rendered: seq<ChartResponse>, requested: seq<string>)
    modifies svc.disk
    ensures svc.disk.files - {svc.cfg.watchlistPath} == old(svc.disk.files) - {svc.cfg.watchlistPath}
    ensures Effect(err, rendered, requested, svc.Stored()) ==
      GetAllEffect(net, old(svc.Stored()), svc.cfg.watchlistPath, svc.Writable())
  {
    var loaded := svc.GetWatchlist();
    if loaded.Err? {
      return Some(GetWatchlistFailed(loaded.error)), [], [];
    }
    var watchlist := loaded.value;
    if |watchlist| == 0 {
      return None, [], [];
    }
    var responses, fetchErr := FetchMultipleStocks(net, watchlist, "1d");
    return None, responses, watchlist;
  }

  /** displayWatchlist; `session` and `runFails` stand for the terminal. */
  method DisplayWatchlist(svc: Service, session: seq<Msg>, runFails: bool) returns (err: Option<CliError>)
    modifies svc.disk
    ensures svc.disk.files - {svc.cfg.watchlistPath} == old(svc.disk.files) - {svc.cfg.watchlistPath}
    ensures Effect(err, [], [], svc.Stored()) ==
      ListEffect(old(svc.Stored()), svc.cfg.watchlistPath, svc.Writable(), session, runFails)
  {
    var loaded := svc.GetWatchlist();
    if loaded.Err? {
      return Some(GetWatchlistFailed(loaded.error));
    }
    var watchlist := loaded.value;
    if |watchlist| == 0 {
      return None;
    }
    var updatedWatchlist, saved := RunWatchlistEditor(watchlist, session, runFails);
    if !saved {
      return None;
    }
    var updated := svc.UpdateWatchlist(updatedWatchlist);
    if updated.Fail? {
      return Some(UpdateFailed(updated.error));
    }
    return None;
  }

  /** addTickersToWatchlist: a failure for one ticker is reported and the loop goes on. */
  method AddTickersToWatchlist(tickersArg: string, svc: Service) returns (err: Option<CliError>)
    modifies svc.disk
    ensures err == None
    ensures svc.disk.files - {svc.cfg.watchlistPath} == old(svc.disk.files) - {svc.cfg.watchlistPath}
    ensures svc.Stored() == AddAll(old(svc.Stored()), svc.cfg.watchlistPath, svc.Writable(), CliTickers(tickersArg))
  {
    var tickers := Split(tickersArg);
    for i := 0 to |tickers|
      invariant svc.disk.files - {svc.cfg.watchlistPath} == old(svc.disk.files) - {svc.cfg.watchlistPath}
      invariant svc.Stored() == AddAll(old(svc.Stored()), svc.cfg.watchlistPath, svc.Writable(), TrimmedNonEmpty(tickers[..i]))
    {
      ghost var before := TrimmedNonEmpty(tickers[..i]);
      TrimmedNonEmptySnoc(tickers, i);
      var ticker := TrimSpace(tickers[i]);
      if ticker == "" {
        assert before + [] == before;
        continue;
      }
      AddAllSnoc(old(svc.Stored()), svc.cfg.watchlistPath, svc.Writable(), before, ticker);
      var added := svc.AddTicker(ticker);
      if added.Fail? {
        continue;
      }
    }
    assert tickers[..|tickers|] == tickers;
    return None;
  }

  /** removeTickersFromWatchlist: a failure for one ticker is reported and the loop goes on. */
  method RemoveTickersFromWatchlist(tickersArg: string, svc: Service) returns (err: Option<CliError>)
    modifies svc.disk
    ensures err == None
    ensures svc.disk.files - {svc.cfg.watchlistPath} == old(svc.disk.files) - {svc.cfg.watchlistPath}
    ensures svc.Stored() == RemoveAll(old(svc.Stored()), svc.cfg.watchlistPath, svc.Writable(), CliTickers(tickersArg))
  {
    var tickers := Split(tickersArg);
    for i := 0 to |tickers|
      invariant svc.disk.files - {svc.cfg.watchlistPath} == old(svc.disk.files) - {svc.cfg.watchlistPath}
      invariant svc.Stored() == RemoveAll(old(svc.Stored()), svc.cfg.watchlistPath, svc.Writable(), TrimmedNonEmpty(tickers[..i]))
    {
      ghost var before := TrimmedNonEmpty(tickers[..i]);
      TrimmedNonEmptySnoc(tickers, i);
      var ticker := TrimSpace(tickers[i]);
      if ticker == "" {
        assert before + [] == before;
        continue;
      }
      RemoveAllSnoc(old(svc.Stored()), svc.cfg.watchlistPath, svc.Writable(), before, ticker);
      var removed := svc.RemoveTicker(ticker);
      if removed.Fail? {
        continue;
      }
    }
    assert tickers[..|tickers|] == tickers;
    return None;
  }

  /** executeCommand. */
  method ExecuteCommand(
    command: string, args: seq<string>, svc: Service,
    net: (string, string) -> Reply, session: seq<Msg>, runFails: bool)
    returns (err: Option<CliError>, rendered: seq<ChartResponse>, requested: seq<string>)
    modifies svc.disk
    ensures svc.disk.files - {svc.cfg.watchlistPath} == old(svc.disk.files) - {svc.cfg.watchlistPath}
    ensures Effect(err, rendered, requested, svc.Stored()) ==
      Execute(old(svc.Stored()), svc.cfg.watchlistPath, svc.Writable(), net, session, runFails, command, args)
  {
    var action := Dispatch(command, args);
    if action.Err? {
      return Some(action.error), [], [];
    }
    match action.value {
      case GetPrices(arg) =>
        err, rendered, requested := GetTickersPrice(net, arg);
      case GetAll =>
        err, rendered, requested := GetWatchlistPrice(svc, net);
      case EditList =>
        err := DisplayWatchlist(svc, session, runFails);
        rendered, requested := [], [];
      case AddTickers(arg) =>
        err := AddTickersToWatchlist(arg, svc);
        rendered, requested := [], [];
      case RemoveTickers(arg) =>
        err := RemoveTickersFromWatchlist(arg, svc);
        rendered, requested := [], [];
      case Help =>
        err, rendered, requested := None, [], [];
      case Version =>
        err, rendered, requested := None, [], [];
    }
  }
}
