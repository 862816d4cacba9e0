/** `Thread::DropKeep` copies the kept slots downwards in place, starting at the top. What that loop
    leaves for any counts, and exactly when that is "drop `drop` slots from under the top `keep`". */
module DropKeepSpec {
  import opened Syntax
  import opened Machine

  /** What a branch needs: everything below the dropped slots, then the kept ones in order. */
  function Intended(st: seq<Word>, drop: nat, keep: nat): (r: seq<Word>)
    requires drop + keep <= |st|
    ensures |r| == |st| - drop
  {
    st[..|st| - drop - keep] + st[|st| - keep..]
  }

  /** Among the kept slots, each one equals the slot `drop` further down. */
  predicate Periodic(st: seq<Word>, drop: nat, keep: nat)
    requires drop + keep <= |st|
  {
    forall p :: |st| - keep <= p < |st| - drop ==> st[p] == st[p + drop]
  }

  /** The slot at `p` after iterations `i` to `keep`: outside the copied region it is untouched;
      inside it is the slot `drop` above, as the loop has left that one. */
  predicate CopiedAt(st: seq<Word>, r: seq<Word>, drop: nat, keep: nat, i: nat, p: nat)
    requires |r| == |st| && p < |st|
  {
    if p < |st| - drop - keep || |st| - drop - i <= p then r[p] == st[p]
    else p + drop < |st| && r[p] == if p + drop < |st| - drop - i then r[p + drop] else st[p + drop]
  }

  lemma {:induction false} CopyDownAt(st: seq<Word>, drop: nat, keep: nat, i: nat, p: nat)
    requires i <= keep && drop + keep <= |st| && 0 < drop && p < |st|
    ensures CopiedAt(st, CopyDown(st, drop, keep, i), drop, keep, i, p)
    decreases keep - i
  {
    if i < keep {
      var last := |st| - drop - i - 1;
      var st' := st[last := st[|st| - i - 1]];
      CopyDownAt(st', drop, keep, i + 1, p);
      CopyDownAt(st', drop, keep, i + 1, last);
    }
  }

  lemma {:induction false} CopyNone(st: seq<Word>, keep: nat, i: nat)
    requires i <= keep <= |st|
    ensures CopyDown(st, 0, keep, i) == st
    decreases keep - i
  {
    if i < keep {
      assert st[|st| - i - 1 := st[|st| - i - 1]] == st;
      CopyNone(st, keep, i + 1);
    }
  }

  /** The stack after `DropKeep`, for every pair of counts: slots below the kept ones stay, and the
      kept ones are read through what the loop has already overwritten. */
  lemma DropKeepAt(st: seq<Word>, drop: nat, keep: nat, p: nat)
    requires drop + keep <= |st| && 0 < drop && p < |st| - drop
    ensures var r := DropKeep(st, drop, keep);
            r[p] == if p < |st| - drop - keep then st[p]
                    else if p + drop < |st| - drop then r[p + drop] else st[p + drop]
  {
    CopyDownAt(st, drop, keep, 0, p);
  }

  lemma {:induction false} PeriodicSlot(st: seq<Word>, drop: nat, keep: nat, p: nat)
    requires drop + keep <= |st| && 0 < drop && Periodic(st, drop, keep) && |st| - drop - keep <= p < |st| - drop
    ensures DropKeep(st, drop, keep)[p] == st[p + drop]
    decreases |st| - p
  {
    DropKeepAt(st, drop, keep, p);
    if p + drop < |st| - drop {
      PeriodicSlot(st, drop, keep, p + drop);
    }
  }

  /** The copy loop does what a branch needs exactly when the kept slots repeat with period `drop`. */
  lemma DropKeepExact(st: seq<Word>, drop: nat, keep: nat)
    requires drop + keep <= |st| && 0 < drop
    ensures DropKeep(st, drop, keep) == Intended(st, drop, keep) <==> Periodic(st, drop, keep)
  {
    var n, r, w := |st|, DropKeep(st, drop, keep), Intended(st, drop, keep);
    if Periodic(st, drop, keep) {
      forall p | 0 <= p < n - drop ensures r[p] == w[p] {
        DropKeepAt(st, drop, keep, p);
        if n - drop - keep <= p {
          PeriodicSlot(st, drop, keep, p);
        }
      }
    }
    if r == w {
      forall p | n - keep <= p < n - drop ensures st[p] == st[p + drop] {
        var q := p - drop;
        DropKeepAt(st, drop, keep, q);
        assert w[q] == st[q + drop] && w[p] == st[p + drop];
      }
    }
  }

  /** The counts for which `DropKeep` is right whatever is on the stack. */
  predicate InOrder(drop: nat, keep: nat) {
    drop == 0 || keep <= drop
  }

  lemma InOrderIntended(st: seq<Word>, drop: nat, keep: nat)
    requires drop + keep <= |st| && InOrder(drop, keep)
    ensures DropKeep(st, drop, keep) == Intended(st, drop, keep)
  {
    if drop == 0 {
      CopyNone(st, keep, 0);
    } else {
      DropKeepExact(st, drop, keep);
    }
  }

  /** Any other counts go wrong on some stack. */
  lemma OutOfOrder(drop: nat, keep: nat) returns (st: seq<Word>)
    requires !InOrder(drop, keep)
    ensures drop + keep <= |st| && DropKeep(st, drop, keep) != Intended(st, drop, keep)
  {
    hide DropKeep, Intended;
    var n := drop + keep;
    st := seq(n, i => if i == n - 1 then 1 else 0);
    var p := n - 1 - drop;
    assert st[p] != st[p + drop];
    DropKeepExact(st, drop, keep);
  }

  /** `InOrder` is exact. */
  lemma InOrderExact(drop: nat, keep: nat)
    ensures InOrder(drop, keep) <==>
      forall st: seq<Word> :: drop + keep <= |st| ==> DropKeep(st, drop, keep) == Intended(st, drop, keep)
  {
    hide DropKeep, Intended, InOrder;
    if InOrder(drop, keep) {
      forall st: seq<Word> | drop + keep <= |st|
        ensures DropKeep(st, drop, keep) == Intended(st, drop, keep)
      {
        InOrderIntended(st, drop, keep);
      }
    } else {
      var st := OutOfOrder(drop, keep);
    }
  }
}
