/** The AEAD receive path (`crypto/aead.ts`): the sliding replay window, kept as a slot
    array shifted in place, refines the set of sequences accepted so far. */
module Replay {
  import opened Bytes

  datatype Verdict = Accepted | Stale | Duplicate | NotUint32

  // ----- The set specification -----

  /** What a window of a given size remembers: every sequence it ever accepted. */
  ghost function Highest(accepted: set<nat>): (h: int)
    ensures h == -1 <==> accepted == {}
    ensures accepted != {} ==> h in accepted
    ensures forall s :: s in accepted ==> s <= h
  {
    if accepted == {} then -1 else MaxOf(accepted)
  }

  ghost function MaxOf(s: set<nat>): (m: nat)
    requires s != {}
    ensures m in s && forall x :: x in s ==> x <= m
  {
    MaxExists(s);
    var m :| m in s && forall x :: x in s ==> x <= m;
    m
  }

  lemma {:induction false} MaxExists(s: set<nat>)
    requires s != {}
    ensures exists m :: m in s && forall x :: x in s ==> x <= m
  {
    var y :| y in s;
    var rest := s - {y};
    assert s == rest + {y};
    if rest == {} {
      assert y in s && forall x :: x in s ==> x <= y;
    } else {
      MaxExists(rest);
      var m :| m in rest && forall x :: x in rest ==> x <= m;
      var top := if y <= m then m else y;
      assert top in s && forall x :: x in s ==> x <= top;
    }
  }

  lemma NewHighest(accepted: set<nat>, sequence: nat)
    requires sequence > Highest(accepted)
    ensures Highest(accepted + {sequence}) == sequence
  {
    assert sequence in accepted + {sequence};
  }

  ghost function Judge(size: nat, accepted: set<nat>, sequence: int): Verdict
  {
    if !(0 <= sequence <= UINT32_MAX) then NotUint32
    else if sequence > Highest(accepted) then Accepted
    else if Highest(accepted) - sequence >= size then Stale
    else if sequence in accepted then Duplicate
    else Accepted
  }

  ghost function Observed(size: nat, accepted: set<nat>, sequence: int): set<nat>
  {
    if Judge(size, accepted, sequence) == Accepted then accepted + {sequence} else accepted
  }

  // ----- The slot array -----

  class Window {
    const size: nat
    var highest: int
    const slots: array<byte>
    ghost var accepted: set<nat>

    ghost predicate Valid()
      reads this, slots
    {
      && size > 0 && slots.Length == size
      && highest == Highest(accepted)
      && (forall i :: 0 <= i < size ==> slots[i] == if highest - i in accepted then 1 else 0)
    }

    constructor (size: nat)
      requires size > 0
      ensures Valid() && fresh(slots) && this.size == size && accepted == {}
    {
      this.size := size;
      highest := -1;
      slots := new byte[size](_ => 0);
      accepted := {};
    }

    /** `observe`: the in-place shift computes exactly the set specification's verdict and next
        set; a rejection writes nothing. */
    method Observe(sequence: int) returns (verdict: Verdict)
      requires Valid()
      modifies this, slots
      ensures Valid()
      ensures verdict == Judge(size, old(accepted), sequence)
      ensures accepted == Observed(size, old(accepted), sequence)
      ensures verdict != Accepted ==> highest == old(highest) && slots[..] == old(slots[..])
    {
      if !(0 <= sequence <= UINT32_MAX) {
        return NotUint32;
      }
      if sequence > highest {
        var advance := sequence - highest;
        if advance >= size {
          Clear();
        } else {
          Shift(advance);
        }
        NewHighest(accepted, sequence);
        highest := sequence;
        slots[0] := 1;
        accepted := accepted + {sequence};
        return Accepted;
      }
      var offset := highest - sequence;
      if offset >= size {
        return Stale;
      }
      if slots[offset] == 1 {
        return Duplicate;
      }
      slots[offset] := 1;
      accepted := accepted + {sequence};
      return Accepted;
    }

    method Clear()
      requires slots.Length == size
      modifies slots
      ensures forall i :: 0 <= i < size ==> slots[i] == 0
    {
      for i := 0 to size
        invariant forall j :: 0 <= j < i ==> slots[j] == 0
      {
        slots[i] := 0;
      }
    }

    /** The two loops that make room for `advance` newer sequences. */
    method Shift(advance: nat)
      requires slots.Length == size && 0 < advance < size
      modifies slots
      ensures forall i :: 0 <= i < size ==>
        slots[i] == if i < advance then 0 else old(slots[i - advance])
    {
      MoveUp(advance);
      for k := 0 to advance
        invariant forall j :: 0 <= j < k ==> slots[j] == 0
        invariant forall j :: advance <= j < size ==> slots[j] == old(slots[j - advance])
      {
        slots[k] := 0;
      }
    }

    method MoveUp(advance: nat)
      requires slots.Length == size && 0 < advance < size
      modifies slots
      ensures forall j :: advance <= j < size ==> slots[j] == old(slots[j - advance])
    {
      var i := size - 1 - advance;
      while i >= 0
        invariant -1 <= i <= size - 1 - advance
        invariant forall j :: 0 <= j <= i + advance ==> slots[j] == old(slots[j])
        invariant forall j :: i + advance < j < size ==> slots[j] == old(slots[j - advance])
      {
        slots[i + advance] := slots[i];
        i := i - 1;
      }
    }

    /** `decryptFrame` after the nonce check: the window is consulted only once the frame
        authenticated, so an unauthenticated frame leaves it as it was. */
    method Admit(authentic: bool, sequence: int) returns (released: bool)
      requires Valid()
      modifies this, slots
      ensures Valid()
      ensures released <==> authentic && Judge(size, old(accepted), sequence) == Accepted
      ensures accepted == AfterFrame(size, old(accepted), Frame(authentic, sequence))
      ensures !released ==> highest == old(highest) && slots[..] == old(slots[..])
    {
      if !authentic {
        return false;
      }
      var verdict := Observe(sequence);
      return verdict == Accepted;
    }
  }

  // ----- Whole runs of the receive path -----

  datatype Frame = Frame(authentic: bool, sequence: int)

  ghost function AfterFrame(size: nat, accepted: set<nat>, f: Frame): set<nat>
  {
    if f.authentic then Observed(size, accepted, f.sequence) else accepted
  }

  ghost function AfterRun(size: nat, accepted: set<nat>, frames: seq<Frame>): set<nat>
    decreases frames
  {
    if frames == [] then accepted
    else AfterRun(size, AfterFrame(size, accepted, frames[0]), frames[1..])
  }

  /** Frame `i` of the run hands its plaintext to the host. */
  ghost predicate Released(size: nat, accepted: set<nat>, frames: seq<Frame>, i: nat)
    requires i < |frames|
  {
    frames[i].authentic &&
    Judge(size, AfterRun(size, accepted, frames[..i]), frames[i].sequence) == Accepted
  }

  lemma {:induction false} RunGrows(size: nat, accepted: set<nat>, frames: seq<Frame>, i: nat, j: nat)
    requires i <= j <= |frames|
    ensures AfterRun(size, accepted, frames[..i]) <= AfterRun(size, accepted, frames[..j])
    decreases j
  {
    if i < j {
      if i == 0 {
        assert frames[..0] == [];
        var next := AfterFrame(size, accepted, frames[0]);
        assert frames[..j][0] == frames[0] && frames[..j][1..] == frames[1..][..j - 1];
        RunGrows(size, next, frames[1..], 0, j - 1);
        assert frames[1..][..0] == [];
      } else {
        var next := AfterFrame(size, accepted, frames[0]);
        assert frames[..i][1..] == frames[1..][..i - 1] && frames[..j][1..] == frames[1..][..j - 1];
        RunGrows(size, next, frames[1..], i - 1, j - 1);
      }
    }
  }

  lemma {:induction false} RunStep(size: nat, accepted: set<nat>, frames: seq<Frame>, i: nat)
    requires i < |frames|
    ensures AfterRun(size, accepted, frames[..i + 1])
         == AfterFrame(size, AfterRun(size, accepted, frames[..i]), frames[i])
    decreases i
  {
    if i == 0 {
      assert frames[..0] == [] && frames[..1] == [frames[0]];
    } else {
      assert frames[..i][1..] == frames[1..][..i - 1] && frames[..i + 1][1..] == frames[1..][..i];
      RunStep(size, AfterFrame(size, accepted, frames[0]), frames[1..], i - 1);
    }
  }

  /** No run, from any starting window and with any unauthenticated frames mixed in, releases
      two plaintexts under one sequence number. */
  lemma {:induction false} NeverReleasedTwice(size: nat, accepted: set<nat>, frames: seq<Frame>, i: nat, j: nat)
    requires size > 0 && i < j < |frames|
    requires Released(size, accepted, frames, i) && Released(size, accepted, frames, j)
    ensures frames[i].sequence != frames[j].sequence
  {
    RunStep(size, accepted, frames, i);
    RunGrows(size, accepted, frames, i + 1, j);
    assert frames[i].sequence in AfterRun(size, accepted, frames[..j]);
  }

  function Authentic(frames: seq<Frame>): seq<Frame>
  {
    if frames == [] then []
    else (if frames[0].authentic then [frames[0]] else []) + Authentic(frames[1..])
  }

  /** Forged frames are invisible: dropping every one of them from a run leaves the window the
      same, hence every later verdict too. */
  lemma {:induction false} ForgeriesInvisible(size: nat, accepted: set<nat>, frames: seq<Frame>)
    ensures AfterRun(size, accepted, Authentic(frames)) == AfterRun(size, accepted, frames)
    decreases frames
  {
    if frames != [] {
      ForgeriesInvisible(size, AfterFrame(size, accepted, frames[0]), frames[1..]);
      if frames[0].authentic {
        assert Authentic(frames)[1..] == Authentic(frames[1..]);
      } else {
        assert Authentic(frames) == Authentic(frames[1..]);
      }
    }
  }

  /** Within the window nothing honest is lost: a fresh sequence less than `size` below the
      highest accepted one is accepted, whatever order the frames arrived in. */
  lemma FreshInWindowAccepted(size: nat, accepted: set<nat>, sequence: uint32)
    ensures Judge(size, accepted, sequence) == Accepted
       <==> sequence !in accepted && sequence > Highest(accepted) - size
  {
    if sequence > Highest(accepted) {
      assert sequence !in accepted;
    }
  }
}
