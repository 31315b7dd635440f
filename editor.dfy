/**
 * internal/ui/list.go: the interactive watchlist editor. The entries are
 * shown one per line with a cursor; the user moves the cursor, marks
 * entries for removal and then saves or quits.
 *
 * The editor's state is a `WatchlistModel` object whose `Update` performs
 * one transition of the pure function `Next`. The terminal program that
 * delivers key presses is replaced by a finite sequence of messages.
 */
module Editor {

  /** A bubbletea message: a key press, by its name, or anything else. */
  datatype Msg = KeyMsg(name: string) | OtherMsg

  /** The keys the editor reacts to. */
  datatype Key = SaveKey | QuitKey | UpKey | DownKey | ToggleKey | Ignored

  function KeyOf(msg: Msg): Key {
    match msg
    case OtherMsg => Ignored
    case KeyMsg(name) =>
      if name == "s" then SaveKey
      else if name == "ctrl+c" || name == "q" then QuitKey
      else if name == "up" || name == "k" then UpKey
      else if name == "down" || name == "j" then DownKey
      else if name == "enter" || name == " " then ToggleKey
      else Ignored
  }

  /** Whether `Update` answers `msg` with `tea.Quit`. */
  predicate Quits(msg: Msg) {
    KeyOf(msg) == SaveKey || KeyOf(msg) == QuitKey
  }

  /** The fields of a WatchlistModel. */
  datatype EditorState = EditorState(
    choices: seq<string>,
    cursor: int,
    selected: set<int>,
    done: bool,
    saved: bool)

  /** NewWatchlistModel: cursor on the first entry, nothing selected. */
  function Initial(watchlist: seq<string>): EditorState {
    EditorState(watchlist, 0, {}, false, false)
  }

  /** The largest cursor position: the last entry, or 0 for an empty list. */
  function LastPosition(choices: seq<string>): nat {
    if |choices| > 0 then |choices| - 1 else 0
  }

  /** Update's transition. */
  function Next(e: EditorState, msg: Msg): EditorState {
    match KeyOf(msg)
    case SaveKey => e.(saved := true, done := true)
    case QuitKey => e.(done := true)
    case UpKey => if e.cursor > 0 then e.(cursor := e.cursor - 1) else e
    case DownKey => if e.cursor < |e.choices| - 1 then e.(cursor := e.cursor + 1) else e
    case ToggleKey =>
      if e.cursor in e.selected then e.(selected := e.selected - {e.cursor})
      else e.(selected := e.selected + {e.cursor})
    case Ignored => e
  }

  /**
   * What every reachable state satisfies: the cursor is on a position of
   * the list (position 0 when it is empty), only such positions are
   * selected, and the editor is done once it has saved.
   */
  predicate Valid(e: EditorState) {
    && 0 <= e.cursor <= LastPosition(e.choices)
    && (forall i :: i in e.selected ==> 0 <= i <= LastPosition(e.choices))
    && (e.saved ==> e.done)
  }

  lemma InitialValid(watchlist: seq<string>)
    ensures Valid(Initial(watchlist))
    ensures Initial(watchlist).choices == watchlist
    ensures !Initial(watchlist).done && !Initial(watchlist).saved
  {
  }

  /** Every transition keeps the state valid and the entries unchanged. */
  lemma NextValid(e: EditorState, msg: Msg)
    requires Valid(e)
    ensures Valid(Next(e, msg))
    ensures Next(e, msg).choices == e.choices
  {
  }

  /**
   * Up moves the cursor back unless it is on the first position, down moves
   * it forward unless it is on the last entry; neither changes anything
   * else.
   */
  lemma CursorMoves(e: EditorState, msg: Msg)
    ensures KeyOf(msg) == UpKey ==>
      Next(e, msg) == e.(cursor := if e.cursor > 0 then e.cursor - 1 else e.cursor)
    ensures KeyOf(msg) == DownKey ==>
      Next(e, msg) == e.(cursor := if e.cursor < |e.choices| - 1 then e.cursor + 1 else e.cursor)
  {
  }

  /** "s" saves and finishes; "q" and "ctrl+c" finish and leave `saved` as it was. */
  lemma SaveAndQuit(e: EditorState, msg: Msg)
    ensures KeyOf(msg) == SaveKey ==> Next(e, msg) == e.(saved := true, done := true)
    ensures KeyOf(msg) == QuitKey ==> Next(e, msg) == e.(done := true)
    ensures Quits(msg) ==> Next(e, msg).done
    ensures !Quits(msg) ==> Next(e, msg).done == e.done && Next(e, msg).saved == e.saved
  {
  }

  /** Toggling flips the membership of the cursor position alone; twice is no change. */
  lemma ToggleTwice(e: EditorState, msg: Msg)
    requires KeyOf(msg) == ToggleKey
    ensures Next(e, msg).selected == if e.cursor in e.selected then e.selected - {e.cursor} else e.selected + {e.cursor}
    ensures Next(Next(e, msg), msg) == e
  {
    var once := Next(e, msg);
    assert once.cursor == e.cursor;
    if e.cursor in e.selected {
      assert once.selected + {e.cursor} == e.selected;
    } else {
      assert once.selected - {e.cursor} == e.selected;
    }
  }

  /** Messages other than the six keys change nothing. */
  lemma IgnoredChangesNothing(e: EditorState, msg: Msg)
    requires KeyOf(msg) == Ignored
    ensures Next(e, msg) == e
  {
  }

  /** The indices in [0, n) outside `sel`, in increasing order. */
  function Unselected(n: nat, sel: set<int>): seq<int> {
    if n == 0 then [] else Unselected(n - 1, sel) + (if n - 1 in sel then [] else [n - 1])
  }

  lemma {:induction false} UnselectedFacts(n: nat, sel: set<int>)
    ensures forall i :: i in Unselected(n, sel) <==> 0 <= i < n && i !in sel
    ensures forall a, b :: 0 <= a < b < |Unselected(n, sel)| ==> Unselected(n, sel)[a] < Unselected(n, sel)[b]
  {
    if n > 0 {
      UnselectedFacts(n - 1, sel);
      var u, ui := Unselected(n, sel), Unselected(n - 1, sel);
      forall a, b | 0 <= a < b < |u| ensures u[a] < u[b] {
        if b == |ui| {
          assert u[a] == ui[a] && ui[a] in ui;
        } else {
          assert u[a] == ui[a] && u[b] == ui[b];
        }
      }
    }
  }

  /** GetRemainingChoices' result: the entries whose positions are not selected. */
  function Remaining(choices: seq<string>, sel: set<int>): seq<string> {
    if choices == [] then []
    else
      var last := |choices| - 1;
      Remaining(choices[..last], sel) + (if last in sel then [] else [choices[last]])
  }

  /**
   * The remaining entries are exactly the entries at the unselected
   * positions, in their original order; so they form a subsequence of the
   * choices.
   */
  lemma {:induction false} RemainingAtUnselected(choices: seq<string>, sel: set<int>)
    ensures |Remaining(choices, sel)| == |Unselected(|choices|, sel)|
    ensures forall k :: 0 <= k < |Remaining(choices, sel)| ==>
      0 <= Unselected(|choices|, sel)[k] < |choices| &&
      Remaining(choices, sel)[k] == choices[Unselected(|choices|, sel)[k]]
  {
    UnselectedFacts(|choices|, sel);
    if choices != [] {
      var last := |choices| - 1;
      var init := choices[..last];
      RemainingAtUnselected(init, sel);
      var r, u := Remaining(choices, sel), Unselected(|choices|, sel);
      var ri, ui := Remaining(init, sel), Unselected(last, sel);
      UnselectedFacts(last, sel);
      forall k | 0 <= k < |r|
        ensures 0 <= u[k] < |choices| && r[k] == choices[u[k]]
      {
        if k < |ri| {
          assert r[k] == ri[k] && u[k] == ui[k];
          assert init[ui[k]] == choices[ui[k]];
        }
      }
    }
  }

  /**
   * The editor after the messages `msgs`: bubbletea stops delivering
   * messages once Update has asked to quit.
   */
  function Run(e: EditorState, msgs: seq<Msg>): EditorState
    decreases |msgs|
  {
    if msgs == [] || e.done then e else Run(Next(e, msgs[0]), msgs[1..])
  }

  /** The first save-or-quit key among `msgs` is "s". */
  predicate SavesFirst(msgs: seq<Msg>) {
    if msgs == [] then false
    else if KeyOf(msgs[0]) == SaveKey then true
    else if KeyOf(msgs[0]) == QuitKey then false
    else SavesFirst(msgs[1..])
  }

  /**
   * A session starting from a valid, unfinished state keeps the entries,
   * ends valid, and has saved exactly when "s" came before any quit key.
   */
  lemma {:induction false} RunFacts(e: EditorState, msgs: seq<Msg>)
    requires Valid(e) && !e.done
    decreases |msgs|
    ensures Valid(Run(e, msgs))
    ensures Run(e, msgs).choices == e.choices
    ensures Run(e, msgs).saved == SavesFirst(msgs)
  {
    if msgs != [] {
      var n := Next(e, msgs[0]);
      NextValid(e, msgs[0]);
      if !n.done {
        RunFacts(n, msgs[1..]);
      }
    }
  }

  /** RunWatchlistEditor's result for the session `msgs`; `runFails` is an error from the terminal program. */
  function EditorResult(watchlist: seq<string>, msgs: seq<Msg>, runFails: bool): (seq<string>, bool) {
    if runFails then (watchlist, false)
    else
      var final := Run(Initial(watchlist), msgs);
      if final.saved then (Remaining(final.choices, final.selected), true) else (watchlist, false)
  }

  /**
   * The editor reports saved exactly when the terminal program ran and "s"
   * came before any quit key. Unsaved, it returns the original list;
   * saved, the entries at the positions left unselected.
   */
  lemma EditorResultFacts(watchlist: seq<string>, msgs: seq<Msg>, runFails: bool)
    ensures EditorResult(watchlist, msgs, runFails).1 <==> !runFails && SavesFirst(msgs)
    ensures !EditorResult(watchlist, msgs, runFails).1 ==> EditorResult(watchlist, msgs, runFails).0 == watchlist
    ensures EditorResult(watchlist, msgs, runFails).1 ==>
      EditorResult(watchlist, msgs, runFails).0 == Remaining(watchlist, Run(Initial(watchlist), msgs).selected)
  {
    InitialValid(watchlist);
    RunFacts(Initial(watchlist), msgs);
  }

  class WatchlistModel {
    var choices: seq<string>
    var cursor: int
    var selected: set<int>
    var done: bool
    var saved: bool

    function State(): EditorState
      reads this
    {
      EditorState(choices, cursor, selected, done, saved)
    }

    /** NewWatchlistModel. */
    constructor (watchlist: seq<string>)
      ensures State() == Initial(watchlist)
    {
      choices := watchlist;
      cursor := 0;
      selected := {};
      done := false;
      saved := false;
    }

    /** Update: one transition; the result says whether the program should quit. */
    method Update(msg: Msg) returns (quit: bool)
      modifies this
      ensures State() == Next(old(State()), msg)
      ensures quit == Quits(msg)
    {
      match KeyOf(msg) {
      case SaveKey =>
        saved := true;
        done := true;
        return true;
      case QuitKey =>
        done := true;
        return true;
      case UpKey =>
        if cursor > 0 {
          cursor := cursor - 1;
        }
      case DownKey =>
        if cursor < |choices| - 1 {
          cursor := cursor + 1;
        }
      case ToggleKey =>
        if cursor in selected {
          selected := selected - {cursor};
        } else {
          selected := selected + {cursor};
        }
      case Ignored =>
      }
      return false;
    }

    /** GetRemainingChoices: the entries not selected, in order. */
    method GetRemainingChoices() returns (remaining: seq<string>)
      ensures remaining == Remaining(choices, selected)
    {
      remaining := [];
      for i := 0 to |choices|
        invariant remaining == Remaining(choices[..i], selected)
      {
        assert choices[..i + 1][..i] == choices[..i];
        if i !in selected {
          remaining := remaining + [choices[i]];
        }
      }
      assert choices[..|choices|] == choices;
    }

    function IsSaved(): bool
      reads this
    {
      saved
    }

    function IsDone(): bool
      reads this
    {
      done
    }
  }

  /**
   * RunWatchlistEditor: runs the editor over the session `msgs` and returns
   * the remaining entries and true when the user saved, else the original
   * list and false.
   */
  method RunWatchlistEditor(watchlist: seq<string>, msgs: seq<Msg>, runFails: bool)
    returns (result: seq<string>, saved: bool)
    ensures (result, saved) == EditorResult(watchlist, msgs, runFails)
  {
    if runFails {
      return watchlist, false;
    }
    var m := new WatchlistModel(watchlist);
    var i := 0;
    var quit := false;
    while i < |msgs| && !quit
      invariant 0 <= i <= |msgs|
      invariant quit == m.done
      invariant Run(m.State(), msgs[i..]) == Run(Initial(watchlist), msgs)
    {
      assert msgs[i..][1..] == msgs[i + 1..];
      quit := m.Update(msgs[i]);
      i := i + 1;
    }
    if !m.IsSaved() {
      return watchlist, false;
    }
    result := m.GetRemainingChoices();
    return result, true;
  }
}
