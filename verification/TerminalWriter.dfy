/** Writing feed decisions to a terminal, with live input held back while replayed bytes are still being parsed. */
module TerminalWriter {
  import opened Basics
  import opened TerminalFeed

  /** How many replay writes have not been released. */
  function Pending(released: seq<bool>): nat {
    if released == [] then 0 else Pending(released[..|released| - 1]) + (if released[|released| - 1] then 0 else 1)
  }

  lemma {:induction false} PendingIff(released: seq<bool>)
    ensures Pending(released) > 0 <==> exists i: nat :: i < |released| && !released[i]
  {
    if released != [] {
      var init := released[..|released| - 1];
      PendingIff(init);
      assert forall i: nat | i < |init| :: init[i] == released[i];
      if !released[|released| - 1] { assert |init| < |released|; }
    }
  }

  lemma {:induction false} PendingAfter(released: seq<bool>, i: nat)
    requires i < |released|
    ensures Pending(released[i := true]) == Pending(released) - (if released[i] then 0 else 1)
    decreases |released|
  {
    var init := released[..|released| - 1];
    if i < |init| {
      PendingAfter(init, i);
      assert released[i := true][..|released| - 1] == init[i := true];
    } else {
      assert released[i := true][..|released| - 1] == init;
    }
  }

  /** Replay writes begun and those whose completion, or synchronous failure, has released them. */
  class TerminalInputGuard {
    var suppressDepth: int
    ghost var released: seq<bool>

    ghost predicate Valid()
      reads this
    {
      suppressDepth == Pending(released)
    }

    constructor ()
      ensures Valid() && released == []
    {
      suppressDepth := 0;
      released := [];
    }

    /** Input is held back exactly while some replay write is unfinished. */
    method IsSuppressed() returns (suppressed: bool)
      requires Valid()
      ensures suppressed <==> exists i: nat :: i < |released| && !released[i]
    {
      PendingIff(released);
      return suppressDepth > 0;
    }

    /** Begin a write; one that throws is released at once. */
    method SuppressUntilDone(throws: bool) returns (ghost i: nat)
      requires Valid()
      modifies this
      ensures Valid() && i == |old(released)| && released == old(released) + [throws]
    {
      i := |released|;
      suppressDepth := suppressDepth + 1;
      released := released + [false];
      assert released[..|released| - 1] == old(released);
      if throws {
        Done(i, false);
      }
    }

    /** The callback of a write, which may come again: `already` is the callback's own record of having been called. */
    method Done(ghost i: nat, already: bool)
      requires Valid() && i < |released| && already == released[i]
      modifies this
      ensures Valid() && released == old(released)[i := true]
    {
      PendingAfter(released, i);
      if already {
        assert released[i := true] == released;
        return;
      }
      released := released[i := true];
      suppressDepth := Max(0, suppressDepth - 1);
    }
  }

  /** A terminal: what was written since the last reset; `base` is where in the stream that starts. */
  class TermWriter {
    var text: Text
    ghost var base: nat

    ghost function View(): Screen
      reads this
    {
      Screen(base, text)
    }

    constructor ()
      ensures View() == Screen(0, [])
    {
      text := [];
      base := 0;
    }

    method Reset(ghost offset: nat)
      modifies this
      ensures View() == Screen(offset, [])
    {
      text := [];
      base := offset;
    }

    method Write(data: Text)
      modifies this`text
      ensures View() == Screen(old(base), old(text) + data)
    {
      text := text + data;
    }

    /** Write verbatim, marking what is replayed as such when there is a guard. */
    method WriteReplay(data: Text, guard: TerminalInputGuard?)
      requires guard != null ==> guard.Valid()
      modifies this`text, guard
      ensures View() == Screen(old(base), old(text) + data)
      ensures guard != null ==> guard.Valid() && guard.released == old(guard.released) + [false]
    {
      if guard != null {
        ghost var _ := guard.SuppressUntilDone(false);
      }
      Write(data);
    }

    /** Nothing is written, and no replay begun, without text to write. */
    method ApplyFeed(feed: TermFeed, ghost offset: nat, guard: TerminalInputGuard?)
      requires guard != null ==> guard.Valid()
      modifies this, guard
      ensures View() == ApplyTermFeed(old(View()), feed, offset)
      ensures guard != null ==>
                && guard.Valid()
                && guard.released
                   == old(guard.released) + (if feed.Noop? || feed.data == [] then [] else [false])
    {
      if feed.Reset? {
        Reset(offset);
        if |feed.data| > 0 {
          WriteReplay(feed.data, guard);
        }
        return;
      }
      if feed.Append? {
        if |feed.data| > 0 {
          WriteReplay(feed.data, guard);
        }
      }
    }
  }
}
