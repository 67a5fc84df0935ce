/** reconcileHistory (internal/llm/openai.go): three passes that splice placeholders into the
    message list by index. The splicing is proved equal to the one-pass repair of `History`. */
module HistoryRepair {
  import opened History

  /** A call and the index of the assistant message that asked for it. */
  datatype Pending = Pending(at: nat, id: string)

  /** The calls of one message. */
  function CallsAt(at: nat, ids: seq<string>): seq<Pending> {
    if ids == [] then [] else [Pending(at, ids[0])] + CallsAt(at, ids[1..])
  }

  /** Every call of `h`, whose first message has index `base`. */
  function AllCalls(h: seq<Message>, base: nat): seq<Pending> {
    if h == [] then []
    else (if h[0].Assistant? then CallsAt(base, Ids(h[0].calls)) else []) + AllCalls(h[1..], base + 1)
  }

  /** The calls with no answer yet, an id at most once. */
  function Dangling(calls: seq<Pending>, answered: set<string>): seq<Pending> {
    if calls == [] then []
    else if calls[0].id in answered then Dangling(calls[1..], answered)
    else [calls[0]] + Dangling(calls[1..], answered + {calls[0].id})
  }

  predicate Within(ps: seq<Pending>, lo: nat, hi: nat) {
    forall k :: 0 <= k < |ps| ==> lo <= ps[k].at < hi
  }

  function InsertAfter(h: seq<Message>, at: nat, m: Message): seq<Message>
    requires at < |h|
  {
    h[..at + 1] + [m] + h[at + 1..]
  }

  /** Splice the patches of `ps` into `h`, last patch first. */
  function SpliceFromBack(h: seq<Message>, ps: seq<Pending>): (w: seq<Message>)
    requires Within(ps, 0, |h|)
    ensures |w| == |h| + |ps|
    decreases |ps|
  {
    if ps == [] then h
    else
      var last := ps[|ps| - 1];
      SpliceFromBack(InsertAfter(h, last.at, Placeholder(last.id)), ps[..|ps| - 1])
  }

  // ---------------------------------------------------------------- splicing and one-pass repair

  /** Splicing two runs of patches is splicing the later run first. */
  lemma {:induction false} SpliceConcat(h: seq<Message>, a: seq<Pending>, b: seq<Pending>)
    requires Within(a, 0, |h|) && Within(b, 0, |h|)
    ensures Within(a + b, 0, |h|)
    ensures SpliceFromBack(h, a + b) == SpliceFromBack(SpliceFromBack(h, b), a)
    decreases |b|
  {
    if b == [] {
      assert a + b == a;
    } else {
      var last := b[|b| - 1];
      assert (a + b)[..|a + b| - 1] == a + b[..|b| - 1];
      SpliceConcat(InsertAfter(h, last.at, Placeholder(last.id)), a, b[..|b| - 1]);
    }
  }

  function Shift(ps: seq<Pending>): (qs: seq<Pending>)
    ensures |qs| == |ps|
    ensures forall k :: 0 <= k < |ps| ==> qs[k] == Pending(ps[k].at + 1, ps[k].id)
  {
    seq(|ps|, k requires 0 <= k < |ps| => Pending(ps[k].at + 1, ps[k].id))
  }

  /** Patches behind the first message leave it alone. */
  lemma {:induction false} SpliceTail(m: Message, t: seq<Message>, ps: seq<Pending>)
    requires Within(ps, 0, |t|)
    ensures SpliceFromBack([m] + t, Shift(ps)) == [m] + SpliceFromBack(t, ps)
    decreases |ps|
  {
    if ps == [] {
      assert Shift(ps) == [];
    } else {
      var last := ps[|ps| - 1];
      var q := Placeholder(last.id);
      assert Shift(ps)[..|ps| - 1] == Shift(ps[..|ps| - 1]);
      assert InsertAfter([m] + t, last.at + 1, q) == [m] + InsertAfter(t, last.at, q);
      SpliceTail(m, InsertAfter(t, last.at, q), ps[..|ps| - 1]);
    }
  }

  lemma {:induction false} SpliceLast(h: seq<Message>, ps: seq<Pending>, last: Pending)
    requires Within(ps + [last], 0, |h|)
    ensures last.at < |h| && Within(ps, 0, |InsertAfter(h, last.at, Placeholder(last.id))|)
    ensures SpliceFromBack(h, ps + [last]) == SpliceFromBack(InsertAfter(h, last.at, Placeholder(last.id)), ps)
  {
    var all := ps + [last];
    assert all[|ps|] == last && all[..|ps|] == ps;
    assert forall k :: 0 <= k < |ps| ==> ps[k] == all[k];
  }

  /** Patches for the first message end up behind it in call order. */
  lemma {:induction false} SpliceHead(m: Message, t: seq<Message>, ids: seq<string>)
    ensures Within(CallsAt(0, ids), 0, |[m] + t|)
    ensures SpliceFromBack([m] + t, CallsAt(0, ids)) == [m] + Placeholders(ids) + t
    decreases |ids|
  {
    CallsAtWithin(0, ids);
    WithinMore(CallsAt(0, ids), 0, 1, |[m] + t|);
    if ids == [] {
      assert [m] + [] + t == [m] + t;
    } else {
      hide SpliceFromBack, CallsAt, Placeholders, Within, InsertAfter;
      var last := ids[|ids| - 1];
      var most := ids[..|ids| - 1];
      assert ids == most + [last];
      CallsAtSnoc(0, most, last);
      PlaceholdersSnoc(most, last);
      SpliceLast([m] + t, CallsAt(0, most), Pending(0, last));
      SpliceHead(m, [Placeholder(last)] + t, most);
      InsertBehindFirst(m, t, Placeholder(last));
      Gather(m, Placeholders(most), Placeholder(last), t);
    }
  }

  lemma {:induction false} InsertBehindFirst(m: Message, t: seq<Message>, x: Message)
    ensures InsertAfter([m] + t, 0, x) == [m] + ([x] + t)
  {}

  lemma {:induction false} Gather(m: Message, a: seq<Message>, x: Message, t: seq<Message>)
    ensures [m] + a + ([x] + t) == [m] + (a + [x]) + t
  {}

  lemma {:induction false} WithinMore(ps: seq<Pending>, lo: nat, hi: nat, more: nat)
    requires Within(ps, lo, hi) && hi <= more
    ensures Within(ps, lo, more)
  {}

  lemma {:induction false} CallsAtSnoc(at: nat, ids: seq<string>, id: string)
    ensures CallsAt(at, ids + [id]) == CallsAt(at, ids) + [Pending(at, id)]
    ensures |CallsAt(at, ids)| == |ids|
  {
    if ids == [] {
      assert [] + [id] == [id];
    } else {
      CallsAtSnoc(at, ids[1..], id);
      assert (ids + [id])[1..] == ids[1..] + [id];
    }
  }

  lemma {:induction false} PlaceholdersSnoc(ids: seq<string>, id: string)
    ensures Placeholders(ids + [id]) == Placeholders(ids) + [Placeholder(id)]
  {
    if ids != [] { assert (ids + [id])[1..] == ids[1..] + [id]; PlaceholdersSnoc(ids[1..], id); }
    else { assert [] + [id] == [id]; }
  }

  lemma {:induction false} ShiftConcat(a: seq<Pending>, b: seq<Pending>)
    ensures Shift(a + b) == Shift(a) + Shift(b)
  {}

  lemma {:induction false} ShiftCalls(h: seq<Message>, base: nat)
    ensures AllCalls(h, base + 1) == Shift(AllCalls(h, base))
  {
    hide CallsAt, Ids, Shift;
    if h == [] {
      NothingShifted();
    } else {
      var here := if h[0].Assistant? then CallsAt(base, Ids(h[0].calls)) else [];
      ShiftCalls(h[1..], base + 1);
      ShiftConcat(here, AllCalls(h[1..], base + 1));
      if h[0].Assistant? {
        ShiftCallsAt(base, Ids(h[0].calls));
      } else {
        NothingShifted();
      }
    }
  }

  lemma {:induction false} NothingShifted()
    ensures Shift([]) == []
  {}

  lemma {:induction false} ShiftCallsAt(at: nat, ids: seq<string>)
    ensures CallsAt(at + 1, ids) == Shift(CallsAt(at, ids))
  {
    if ids != [] {
      ShiftCallsAt(at, ids[1..]);
      assert Shift([Pending(at, ids[0])] + CallsAt(at, ids[1..])) == [Pending(at + 1, ids[0])] + Shift(CallsAt(at, ids[1..]));
    }
  }

  lemma {:induction false} DanglingShift(ps: seq<Pending>, answered: set<string>)
    ensures Dangling(Shift(ps), answered) == Shift(Dangling(ps, answered))
  {
    if ps != [] {
      assert Shift(ps)[1..] == Shift(ps[1..]);
      if ps[0].id in answered {
        DanglingShift(ps[1..], answered);
      } else {
        DanglingShift(ps[1..], answered + {ps[0].id});
        var rest := Dangling(ps[1..], answered + {ps[0].id});
        assert Shift([ps[0]] + rest) == [Pending(ps[0].at + 1, ps[0].id)] + Shift(rest);
      }
    }
  }

  /** The dangling calls of one message are its missing ids. */
  lemma {:induction false} DanglingHead(at: nat, ids: seq<string>, rest: seq<Pending>, answered: set<string>)
    ensures Dangling(CallsAt(at, ids) + rest, answered)
         == CallsAt(at, Missing(ids, answered)) + Dangling(rest, answered + SetOf(Missing(ids, answered)))
  {
    if ids == [] {
      assert CallsAt(at, ids) + rest == rest;
      assert answered + SetOf([]) == answered;
    } else {
      assert (CallsAt(at, ids) + rest)[1..] == CallsAt(at, ids[1..]) + rest;
      if ids[0] in answered {
        DanglingHead(at, ids[1..], rest, answered);
      } else {
        DanglingHead(at, ids[1..], rest, answered + {ids[0]});
        var more := Missing(ids[1..], answered + {ids[0]});
        SetOfConcat([ids[0]], more);
        assert answered + {ids[0]} + SetOf(more) == answered + SetOf([ids[0]] + more);
        assert ([ids[0]] + more)[1..] == more;
      }
    }
  }

  lemma {:induction false} CallsAtWithin(at: nat, ids: seq<string>)
    ensures Within(CallsAt(at, ids), at, at + 1)
  {
    if ids != [] { CallsAtWithin(at, ids[1..]); }
  }

  lemma {:induction false} AllCallsWithin(h: seq<Message>, base: nat)
    ensures Within(AllCalls(h, base), base, base + |h|)
  {
    if h != [] {
      AllCallsWithin(h[1..], base + 1);
      if h[0].Assistant? { CallsAtWithin(base, Ids(h[0].calls)); }
    }
  }

  lemma {:induction false} DanglingWithin(ps: seq<Pending>, answered: set<string>, lo: nat, hi: nat)
    requires Within(ps, lo, hi)
    ensures Within(Dangling(ps, answered), lo, hi)
  {
    if ps != [] {
      if ps[0].id in answered { DanglingWithin(ps[1..], answered, lo, hi); }
      else { DanglingWithin(ps[1..], answered + {ps[0].id}, lo, hi); }
    }
  }

  lemma {:induction false} AllCallsCons(m: Message, t: seq<Message>, base: nat)
    ensures AllCalls([m] + t, base) == (if m.Assistant? then CallsAt(base, Ids(m.calls)) else []) + AllCalls(t, base + 1)
  {
    hide CallsAt, Ids;
    assert ([m] + t)[1..] == t;
  }

  lemma {:induction false} RepairCons(m: Message, t: seq<Message>, answered: set<string>)
    ensures Repair([m] + t, answered) ==
            if m.Assistant? then
              var missing := Missing(Ids(m.calls), answered);
              [m] + Placeholders(missing) + Repair(t, answered + SetOf(missing))
            else [m] + Repair(t, answered)
  {
    hide Missing, Placeholders, Ids, SetOf;
    assert ([m] + t)[1..] == t;
  }

  lemma {:induction false} ShiftWithin(ps: seq<Pending>, n: nat, m: nat)
    requires Within(ps, 0, n) && m == n + 1
    ensures Within(Shift(ps), 0, m)
  {}

  /** Splicing every dangling call from the back is the one-pass repair. */
  lemma {:induction false} SpliceIsRepair(h: seq<Message>, answered: set<string>)
    ensures Within(Dangling(AllCalls(h, 0), answered), 0, |h|)
    ensures SpliceFromBack(h, Dangling(AllCalls(h, 0), answered)) == Repair(h, answered)
    decreases |h|, 1
  {
    hide Within, AllCalls, Dangling, SpliceFromBack, Repair;
    AllCallsWithin(h, 0);
    DanglingWithin(AllCalls(h, 0), answered, 0, |h|);
    if h == [] {
      NothingToRepair(answered);
    } else {
      assert h == [h[0]] + h[1..];
      if h[0].Assistant? {
        SpliceIsRepairAssistant(h[0], h[1..], answered);
      } else {
        SpliceIsRepair(h[1..], answered);
        SpliceIsRepairPlain(h[0], h[1..], answered);
      }
    }
  }

  lemma {:induction false} NothingToRepair(answered: set<string>)
    ensures Within([], 0, 0) && Dangling(AllCalls([], 0), answered) == [] && SpliceFromBack([], []) == Repair([], answered)
  {}

  lemma {:induction false} SpliceIsRepairPlain(m: Message, t: seq<Message>, answered: set<string>)
    requires !m.Assistant?
    requires Within(Dangling(AllCalls(t, 0), answered), 0, |t|)
    requires Within(Dangling(AllCalls([m] + t, 0), answered), 0, |[m] + t|)
    requires SpliceFromBack(t, Dangling(AllCalls(t, 0), answered)) == Repair(t, answered)
    ensures SpliceFromBack([m] + t, Dangling(AllCalls([m] + t, 0), answered)) == Repair([m] + t, answered)
  {
    hide Within, AllCalls, Dangling, Shift, SpliceFromBack, Repair;
    ShiftCalls(t, 0);
    AllCallsCons(m, t, 0);
    assert [] + AllCalls(t, 1) == AllCalls(t, 1);
    RepairCons(m, t, answered);
    DanglingShift(AllCalls(t, 0), answered);
    SpliceTail(m, t, Dangling(AllCalls(t, 0), answered));
  }

  lemma {:induction false} SpliceIsRepairAssistant(m: Message, t: seq<Message>, answered: set<string>)
    requires m.Assistant?
    requires Within(Dangling(AllCalls([m] + t, 0), answered), 0, |[m] + t|)
    ensures SpliceFromBack([m] + t, Dangling(AllCalls([m] + t, 0), answered)) == Repair([m] + t, answered)
    decreases |t| + 1, 0
  {
    hide SpliceFromBack, Repair, AllCalls, Dangling, Missing, Placeholders, Shift, Within, CallsAt, Ids, SetOf;
    var ids := Ids(m.calls);
    var missing := Missing(ids, answered);
    var after := answered + SetOf(missing);
    var tail := Dangling(AllCalls(t, 0), after);
    AllCallsCons(m, t, 0);
    ShiftCalls(t, 0);
    DanglingHead(0, ids, AllCalls(t, 1), answered);
    DanglingShift(AllCalls(t, 0), after);
    SpliceIsRepair(t, after);
    SpliceTail(m, t, tail);
    ShiftWithin(tail, |t|, |[m] + t|);
    SpliceHead(m, t, missing);
    SpliceConcat([m] + t, CallsAt(0, missing), Shift(tail));
    SpliceHead(m, Repair(t, after), missing);
    RepairCons(m, t, answered);
  }
}
