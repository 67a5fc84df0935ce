/** The fixed-window limiter of a public endpoint (internal/signaling/rate_limiter.go). Times are
    nanoseconds. */
module RateLimiter {
  import opened Wrappers

  const SECOND: int := 1_000_000_000
  const DEFAULT_LIMIT: nat := 120
  const DEFAULT_WINDOW: int := 60 * SECOND
  const GC_THRESHOLD: nat := 8192

  datatype Config = Config(limit: int, window: int) {
    predicate Valid() {
      limit > 0 && window > 0
    }
  }

  datatype Count = Count(count: nat, resetAt: int)

  datatype Request = Request(client: string, at: int)

  datatype Decision = Decision(allowed: bool, retryAfter: int)

  function Key(client: string): string {
    if client == "" then "_unknown" else client
  }

  // ---------------------------------------------------------------- one request

  function RetryAfter(resetAt: int, now: int): int {
    var seconds := (resetAt - now) / SECOND;
    if seconds < 1 then 1 else seconds
  }

  /** What a client's own count says, and becomes. */
  function Decide(cfg: Config, slot: Option<Count>, now: int): (Count, Decision) {
    if slot.None? || now > slot.value.resetAt then (Count(1, now + cfg.window), Decision(true, 0))
    else if slot.value.count >= cfg.limit then (slot.value, Decision(false, RetryAfter(slot.value.resetAt, now)))
    else (Count(slot.value.count + 1, slot.value.resetAt), Decision(true, 0))
  }

  function Slot(counts: map<string, Count>, key: string): Option<Count> {
    if key in counts then Some(counts[key]) else None
  }

  function Unexpired(counts: map<string, Count>, now: int): map<string, Count> {
    map k | k in counts && now <= counts[k].resetAt :: counts[k]
  }

  /** Large maps lose their expired entries. */
  function Collected(counts: map<string, Count>, now: int): map<string, Count> {
    if |counts| < GC_THRESHOLD then counts else Unexpired(counts, now)
  }

  predicate OpensWindow(slot: Option<Count>, now: int) {
    slot.None? || now > slot.value.resetAt
  }

  /** The limiter: it collects when a window opens. */
  function Answer(cfg: Config, counts: map<string, Count>, r: Request): (map<string, Count>, Decision) {
    var slot := Slot(counts, Key(r.client));
    var (count, decision) := Decide(cfg, slot, r.at);
    var updated := counts[Key(r.client) := count];
    (if OpensWindow(slot, r.at) then Collected(updated, r.at) else updated, decision)
  }

  /** One that never collects. */
  function AnswerForever(cfg: Config, counts: map<string, Count>, r: Request): (map<string, Count>, Decision) {
    var (count, decision) := Decide(cfg, Slot(counts, Key(r.client)), r.at);
    (counts[Key(r.client) := count], decision)
  }

  function Run(cfg: Config, rs: seq<Request>): (map<string, Count>, seq<Decision>) {
    if rs == [] then (map[], [])
    else
      var (before, ds) := Run(cfg, rs[..|rs| - 1]);
      var (after, d) := Answer(cfg, before, rs[|rs| - 1]);
      (after, ds + [d])
  }

  function RunForever(cfg: Config, rs: seq<Request>): (map<string, Count>, seq<Decision>) {
    if rs == [] then (map[], [])
    else
      var (before, ds) := RunForever(cfg, rs[..|rs| - 1]);
      var (after, d) := AnswerForever(cfg, before, rs[|rs| - 1]);
      (after, ds + [d])
  }

  /** The clock does not go back. */
  predicate InOrder(rs: seq<Request>) {
    forall i, j :: 0 <= i < j < |rs| ==> rs[i].at <= rs[j].at
  }

  // ---------------------------------------------------------------- collecting changes no decision

  /** What one limiter has and the other has not had run out by `now`. */
  predicate Agrees(some: map<string, Count>, all: map<string, Count>, now: int) {
    && (forall k :: k in some ==> k in all && some[k] == all[k])
    && (forall k :: k in all && k !in some ==> all[k].resetAt < now)
  }

  lemma {:induction false} StepAgrees(cfg: Config, some: map<string, Count>, all: map<string, Count>, last: int, r: Request)
    requires Agrees(some, all, last) && last <= r.at && cfg.Valid()
    ensures Answer(cfg, some, r).1 == AnswerForever(cfg, all, r).1
    ensures Agrees(Answer(cfg, some, r).0, AnswerForever(cfg, all, r).0, r.at)
  {
    hide RetryAfter, Collected;
    var key := Key(r.client);
    var count := Decide(cfg, Slot(some, key), r.at).0;
    assert Decide(cfg, Slot(some, key), r.at) == Decide(cfg, Slot(all, key), r.at);
    var updated := some[key := count];
    CollectedIs(updated, r.at);
  }

  lemma {:induction false} CollectedIs(counts: map<string, Count>, now: int)
    ensures Collected(counts, now) == counts || Collected(counts, now) == Unexpired(counts, now)
  {}

  /** A limiter that collects gives the same answers as one that never does. */
  lemma {:induction false} CollectingDecidesTheSame(cfg: Config, rs: seq<Request>)
    requires cfg.Valid() && InOrder(rs)
    ensures Run(cfg, rs).1 == RunForever(cfg, rs).1
    ensures Agrees(Run(cfg, rs).0, RunForever(cfg, rs).0, if rs == [] then 0 else rs[|rs| - 1].at)
  {
    hide Answer, AnswerForever, Agrees;
    if rs == [] {
      NothingAgrees();
    } else {
      var most, r := rs[..|rs| - 1], rs[|rs| - 1];
      CollectingDecidesTheSame(cfg, most);
      if most == [] {
        NothingAgreesAt(r.at);
        StepAgrees(cfg, map[], map[], r.at, r);
      } else {
        StepAgrees(cfg, Run(cfg, most).0, RunForever(cfg, most).0, most[|most| - 1].at, r);
      }
    }
  }

  lemma {:induction false} NothingAgrees()
    ensures Agrees(map[], map[], 0)
  {}

  lemma {:induction false} NothingAgreesAt(now: int)
    ensures Agrees(map[], map[], now)
  {}

  // ---------------------------------------------------------------- how many get through

  /** A request that was let through, and the start of the window it was counted in. */
  datatype Admission = Admission(at: int, start: int)

  /** The requests of one client that were let through. */
  function Admitted(cfg: Config, rs: seq<Request>, key: string): seq<Admission> {
    if rs == [] then []
    else
      var most, r := rs[..|rs| - 1], rs[|rs| - 1];
      var (counts, decision) := AnswerForever(cfg, RunForever(cfg, most).0, r);
      Admitted(cfg, most, key)
      + if Key(r.client) == key && decision.allowed then [Admission(r.at, counts[key].resetAt - cfg.window)] else []
  }

  /** Each admission falls in its window, and `limit` later ones have moved on to another. */
  predicate Spread(cfg: Config, a: seq<Admission>) {
    && (forall i :: 0 <= i < |a| ==> a[i].start <= a[i].at <= a[i].start + cfg.window)
    && (forall i, j :: 0 <= i < |a| && 0 <= j < |a| && i + cfg.limit <= j ==> a[i].start + cfg.window < a[j].start)
  }

  /** The last admissions are those of the client's current window, and all before it are older. */
  predicate Tracks(cfg: Config, slot: Option<Count>, a: seq<Admission>) {
    if slot.None? then a == []
    else
      var c, start := slot.value.count, slot.value.resetAt - cfg.window;
      && 0 < c <= cfg.limit && c <= |a|
      && (forall i :: 0 <= i < |a| - c ==> a[i].start + cfg.window < start)
      && (forall i :: |a| - c <= i < |a| ==> a[i].start == start)
  }

  predicate NotAfter(a: seq<Admission>, now: int) {
    forall i :: 0 <= i < |a| ==> a[i].at <= now
  }

  lemma {:induction false} AdmitSpreads(cfg: Config, slot: Option<Count>, a: seq<Admission>, now: int)
    requires cfg.Valid() && Spread(cfg, a) && Tracks(cfg, slot, a) && NotAfter(a, now)
    ensures var (count, decision) := Decide(cfg, slot, now);
            var more := if decision.allowed then [Admission(now, count.resetAt - cfg.window)] else [];
            Spread(cfg, a + more) && Tracks(cfg, Some(count), a + more)
  {
    hide RetryAfter;
    var (count, decision) := Decide(cfg, slot, now);
    if !decision.allowed {
      assert a + [] == a;
    } else if OpensWindow(slot, now) {
      OpenSpreads(cfg, slot, a, now);
    } else {
      CountSpreads(cfg, slot.value, a, now);
    }
  }

  /** The first of a window starts it, after the last window has closed. */
  lemma {:induction false} OpenSpreads(cfg: Config, slot: Option<Count>, a: seq<Admission>, now: int)
    requires cfg.Valid() && Spread(cfg, a) && Tracks(cfg, slot, a) && OpensWindow(slot, now)
    ensures Spread(cfg, a + [Admission(now, now)]) && Tracks(cfg, Some(Count(1, now + cfg.window)), a + [Admission(now, now)])
  {
    var all, n := a + [Admission(now, now)], |a|;
    assert forall i :: 0 <= i < n ==> all[i] == a[i];
    assert forall i :: 0 <= i < n ==> a[i].start + cfg.window < now;
  }

  /** The others are counted in it. */
  lemma {:induction false} CountSpreads(cfg: Config, c: Count, a: seq<Admission>, now: int)
    requires cfg.Valid() && Spread(cfg, a) && Tracks(cfg, Some(c), a) && NotAfter(a, now)
    requires now <= c.resetAt && c.count < cfg.limit
    ensures var all := a + [Admission(now, c.resetAt - cfg.window)];
            Spread(cfg, all) && Tracks(cfg, Some(Count(c.count + 1, c.resetAt)), all)
  {
    var all, n := a + [Admission(now, c.resetAt - cfg.window)], |a|;
    assert a[n - 1].start == c.resetAt - cfg.window && a[n - 1].at <= now;
    assert forall i :: 0 <= i < n ==> all[i] == a[i];
    assert forall i :: 0 <= i < n && i + cfg.limit <= n ==> all[i].start + cfg.window < all[n].start;
  }

  lemma {:induction false} RunSpreads(cfg: Config, rs: seq<Request>, key: string)
    requires cfg.Valid() && InOrder(rs)
    ensures var a := Admitted(cfg, rs, key);
            Spread(cfg, a) && Tracks(cfg, Slot(RunForever(cfg, rs).0, key), a) && (rs != [] ==> NotAfter(a, rs[|rs| - 1].at))
  {
    hide Decide, Spread, Tracks;
    if rs == [] {
      NothingSpreads(cfg);
    } else {
      var most, r := rs[..|rs| - 1], rs[|rs| - 1];
      RunSpreads(cfg, most, key);
      var before, a := RunForever(cfg, most).0, Admitted(cfg, most, key);
      assert NotAfter(a, r.at) by { if most == [] { assert a == []; } }
      if Key(r.client) == key {
        AdmitSpreads(cfg, Slot(before, key), a, r.at);
      } else {
        assert a + [] == a;
      }
    }
  }

  lemma {:induction false} NothingSpreads(cfg: Config)
    ensures Spread(cfg, []) && Tracks(cfg, None, [])
  {}

  lemma {:induction false} AdmissionsSpread(cfg: Config, rs: seq<Request>, key: string, i: nat, j: nat)
    requires cfg.Valid() && InOrder(rs)
    requires i + 2 * cfg.limit <= j < |Admitted(cfg, rs, key)|
    ensures var a := Admitted(cfg, rs, key); a[j].at - a[i].at > cfg.window
  {
    RunSpreads(cfg, rs, key);
    hide Admitted, RunForever, InOrder, Tracks;
    var a := Admitted(cfg, rs, key);
    var m := i + cfg.limit;
    assert a[i].start + cfg.window < a[m].start;
    assert a[m].start + cfg.window < a[j].start;
  }

  /** When one client's requests were let through, by the decisions made. */
  function LetThrough(rs: seq<Request>, ds: seq<Decision>, key: string): seq<int> {
    if rs == [] || |ds| != |rs| then []
    else
      var n := |rs| - 1;
      LetThrough(rs[..n], ds[..n], key) + if Key(rs[n].client) == key && ds[n].allowed then [rs[n].at] else []
  }

  lemma {:induction false} LetThroughIsAdmitted(cfg: Config, rs: seq<Request>, key: string)
    ensures |RunForever(cfg, rs).1| == |rs|
    ensures var times := LetThrough(rs, RunForever(cfg, rs).1, key); var a := Admitted(cfg, rs, key);
            |times| == |a| && forall i :: 0 <= i < |a| ==> times[i] == a[i].at
  {
    hide AnswerForever;
    if rs != [] {
      var n := |rs| - 1;
      LetThroughIsAdmitted(cfg, rs[..n], key);
      var ds := RunForever(cfg, rs).1;
      assert ds[..n] == RunForever(cfg, rs[..n]).1;
    }
  }

  /** Any interval as long as the window, wherever it starts, lets through at most twice the limit from
      one client: of any `2 * limit + 1` requests let through the last is more than a window after the
      first. */
  lemma {:induction false} AtMostTwiceTheLimit(cfg: Config, rs: seq<Request>, key: string, i: nat, j: nat)
    requires cfg.Valid() && InOrder(rs)
    requires i + 2 * cfg.limit <= j < |LetThrough(rs, Run(cfg, rs).1, key)|
    ensures var times := LetThrough(rs, Run(cfg, rs).1, key); times[j] - times[i] > cfg.window
  {
    hide LetThrough, Run, RunForever, Admitted, InOrder;
    CollectingDecidesTheSame(cfg, rs);
    LetThroughIsAdmitted(cfg, rs, key);
    AdmissionsSpread(cfg, rs, key, i, j);
  }

  lemma {:induction false} RefusedWhenCounted(cfg: Config, rs: seq<Request>, r: Request)
    requires cfg.Valid() && InOrder(rs + [r])
    requires !AnswerForever(cfg, RunForever(cfg, rs).0, r).1.allowed
    ensures var a := Admitted(cfg, rs, Key(r.client));
            |a| >= cfg.limit && forall i :: |a| - cfg.limit <= i < |a| ==> r.at - cfg.window <= a[i].at <= r.at
  {
    FirstInOrder(rs, r);
    var key := Key(r.client);
    RunSpreads(cfg, rs, key);
    hide Admitted, RunForever, InOrder, RetryAfter;
    var a, slot := Admitted(cfg, rs, key), Slot(RunForever(cfg, rs).0, key);
    assert slot.Some? && slot.value.count >= cfg.limit && r.at <= slot.value.resetAt;
    if rs == [] { EmptyRun(cfg, key); }
  }

  lemma {:induction false} FirstInOrder(rs: seq<Request>, r: Request)
    requires InOrder(rs + [r])
    ensures InOrder(rs) && (rs != [] ==> rs[|rs| - 1].at <= r.at)
  {
    assert forall i :: 0 <= i < |rs| ==> rs[i] == (rs + [r])[i];
    assert (rs + [r])[|rs|] == r;
  }

  /** And a request is refused only when the limit has been let through within the last window. */
  lemma {:induction false} RefusedOnlyWhenSpent(cfg: Config, rs: seq<Request>, r: Request)
    requires cfg.Valid() && InOrder(rs + [r])
    requires !Answer(cfg, Run(cfg, rs).0, r).1.allowed
    ensures var times := LetThrough(rs, Run(cfg, rs).1, Key(r.client));
            |times| >= cfg.limit && forall i :: |times| - cfg.limit <= i < |times| ==> r.at - cfg.window <= times[i] <= r.at
  {
    hide LetThrough, Run, RunForever, Admitted, InOrder, Answer, AnswerForever, Agrees;
    FirstInOrder(rs, r);
    CollectingDecidesTheSame(cfg, rs);
    if rs == [] {
      NothingAgreesAt(r.at);
      EmptyMaps(cfg);
      StepAgrees(cfg, map[], map[], r.at, r);
    } else {
      StepAgrees(cfg, Run(cfg, rs).0, RunForever(cfg, rs).0, rs[|rs| - 1].at, r);
    }
    LetThroughIsAdmitted(cfg, rs, Key(r.client));
    RefusedWhenCounted(cfg, rs, r);
  }

  lemma {:induction false} EmptyMaps(cfg: Config)
    ensures Run(cfg, []).0 == map[] && RunForever(cfg, []).0 == map[]
  {}

  lemma {:induction false} EmptyRun(cfg: Config, key: string)
    ensures Slot(RunForever(cfg, []).0, key).None?
  {}

  // ---------------------------------------------------------------- what an answer depends on

  /** The requests of the client that `r` comes from; those without a name are one client. */
  function SameClient(rs: seq<Request>, r: Request): seq<Request> {
    if rs == [] then []
    else
      var last := rs[|rs| - 1];
      SameClient(rs[..|rs| - 1], r)
      + if last.client == r.client || (last.client in {"", "_unknown"} && r.client in {"", "_unknown"}) then [last] else []
  }

  lemma {:induction false} OwnSlot(cfg: Config, rs: seq<Request>, r: Request)
    ensures Slot(RunForever(cfg, rs).0, Key(r.client)) == Slot(RunForever(cfg, SameClient(rs, r)).0, Key(r.client))
  {
    hide Decide;
    if rs != [] {
      var most, last := rs[..|rs| - 1], rs[|rs| - 1];
      OwnSlot(cfg, most, r);
      var own := SameClient(most, r);
      if Key(last.client) == Key(r.client) {
        assert (own + [last])[..|own|] == own;
      } else {
        assert own + [] == own;
      }
    }
  }

  lemma {:induction false} SameClientInOrder(rs: seq<Request>, r: Request)
    requires InOrder(rs)
    ensures InOrder(SameClient(rs, r))
    ensures SameClient(rs, r) != [] ==> rs != [] && SameClient(rs, r)[|SameClient(rs, r)| - 1].at <= rs[|rs| - 1].at
  {
    if rs != [] {
      var most := rs[..|rs| - 1];
      SameClientInOrder(most, r);
      var own := SameClient(most, r);
      hide SameClient;
      SameClientNext(rs, r);
      if SameClient(rs, r) != own { OrderedSnoc(own, rs[|rs| - 1]); }
    }
  }

  lemma {:induction false} SameClientNext(rs: seq<Request>, r: Request)
    requires rs != []
    ensures var own := SameClient(rs[..|rs| - 1], r); SameClient(rs, r) == own || SameClient(rs, r) == own + [rs[|rs| - 1]]
  {}

  lemma {:induction false} OrderedSnoc(rs: seq<Request>, r: Request)
    requires InOrder(rs) && (rs != [] ==> rs[|rs| - 1].at <= r.at)
    ensures InOrder(rs + [r])
  {}

  /** One client's requests are answered as if no other client had asked anything. */
  lemma {:induction false} OthersDoNotCount(cfg: Config, rs: seq<Request>, r: Request)
    requires cfg.Valid() && InOrder(rs + [r])
    ensures Answer(cfg, Run(cfg, rs).0, r).1 == Answer(cfg, Run(cfg, SameClient(rs, r)).0, r).1
  {
    hide Run, RunForever, SameClient, Decide, Collected;
    FirstInOrder(rs, r);
    SameClientInOrder(rs, r);
    var own := SameClient(rs, r);
    OwnSlot(cfg, rs, r);
    AnswersAlike(cfg, rs, r);
    AnswersAlike(cfg, own, r);
  }

  lemma {:induction false} AnswersAlike(cfg: Config, rs: seq<Request>, r: Request)
    requires cfg.Valid() && InOrder(rs) && (rs != [] ==> rs[|rs| - 1].at <= r.at)
    ensures Answer(cfg, Run(cfg, rs).0, r).1 == AnswerForever(cfg, RunForever(cfg, rs).0, r).1
  {
    hide Answer, AnswerForever, Agrees;
    CollectingDecidesTheSame(cfg, rs);
    if rs == [] {
      EmptyMaps(cfg);
      NothingAgreesAt(r.at);
      StepAgrees(cfg, map[], map[], r.at, r);
    } else {
      StepAgrees(cfg, Run(cfg, rs).0, RunForever(cfg, rs).0, rs[|rs| - 1].at, r);
    }
  }

  /** Who is refused is told the whole seconds until the window closes, and one at least; who is let
      through is told nothing. */
  lemma {:induction false} RetryMeans(cfg: Config, slot: Option<Count>, now: int)
    requires cfg.Valid()
    ensures var d := Decide(cfg, slot, now).1;
            && (d.allowed ==> d.retryAfter == 0)
            && (!d.allowed ==>
                  && slot.Some? && now <= slot.value.resetAt && d.retryAfter >= 1
                  && now + d.retryAfter * 1_000_000_000 <= slot.value.resetAt + (if slot.value.resetAt - now < 1_000_000_000 then 1_000_000_000 else 0)
                  && slot.value.resetAt < now + (d.retryAfter + 1) * 1_000_000_000)
  {}

  /** Below 8192 entries nothing is collected; from there on, exactly what has run out. */
  lemma {:induction false} CollectedMeans(counts: map<string, Count>, now: int, k: string)
    ensures k in Collected(counts, now) <==> k in counts && (|counts| < 8192 || counts[k].resetAt >= now)
    ensures k in Collected(counts, now) ==> Collected(counts, now)[k] == counts[k]
  {}

  // ---------------------------------------------------------------- the limiter

  class WidgetRateLimiter {
    const cfg: Config
    var counts: map<string, Count>

    constructor (limit: int, window: int)
      ensures counts == map[] && cfg.Valid()
      ensures cfg == Config(if limit <= 0 then 120 else limit, if window <= 0 then 60_000_000_000 else window)
    {
      cfg := Config(if limit <= 0 then DEFAULT_LIMIT else limit, if window <= 0 then DEFAULT_WINDOW else window);
      counts := map[];
    }

    method Allow(client: string, now: int) returns (allowed: bool, retryAfter: int)
      modifies this
      ensures (counts, Decision(allowed, retryAfter)) == Answer(cfg, old(counts), Request(client, now))
    {
      hide Collected;
      var key := if client == "" then "_unknown" else client;
      if key !in counts || now > counts[key].resetAt {
        counts := counts[key := Count(1, now + cfg.window)];
        MaybeGC(now);
        return true, 0;
      }
      var c := counts[key];
      if c.count >= cfg.limit {
        var seconds := (c.resetAt - now) / SECOND;
        if seconds < 1 {
          seconds := 1;
        }
        assert counts[key := c] == counts;
        return false, seconds;
      }
      counts := counts[key := Count(c.count + 1, c.resetAt)];
      return true, 0;
    }

    /** Walks the map in whatever order it comes. */
    method MaybeGC(now: int)
      modifies this
      ensures counts == Collected(old(counts), now)
    {
      if |counts| < GC_THRESHOLD {
        return;
      }
      var all := counts;
      var keys := counts.Keys;
      while keys != {}
        invariant keys <= all.Keys && counts.Keys <= all.Keys
        invariant forall k :: k in counts ==> counts[k] == all[k]
        invariant forall k :: k in all ==> (k in counts <==> k in keys || now <= all[k].resetAt)
        decreases |keys|
      {
        var k :| k in keys;
        keys := keys - {k};
        if now > all[k].resetAt {
          counts := counts - {k};
        }
      }
      assert counts == Unexpired(all, now);
    }
  }
}
