/** The fixed-window limiter: a window opens with a key's first hit and admits a number of hits. */
module RateLimiter {
  import opened Tables

  datatype Window = Window(count: nat, resetsAt: real)

  datatype Hit = Hit(key: string, limit: nat, seconds: nat, now: real)

  /** `None` admits the hit; otherwise the number of seconds to wait. */
  datatype HitResult = HitResult(windows: map<string, Window>, wait: Option<int>)

  function Current(windows: map<string, Window>, hit: Hit): Window {
    if hit.key in windows && windows[hit.key].resetsAt > hit.now then windows[hit.key]
    else Window(0, hit.now + hit.seconds as real)
  }

  function Max(a: int, b: int): int { if a < b then b else a }

  /** The table once a hit has been counted. */
  function Counted(windows: map<string, Window>, hit: Hit): map<string, Window> {
    windows[hit.key := Window(Current(windows, hit).count + 1, Current(windows, hit).resetsAt)]
  }

  predicate Admits(windows: map<string, Window>, hit: Hit) { Current(windows, hit).count < hit.limit }

  function Serve(windows: map<string, Window>, hit: Hit): HitResult {
    HitResult(Counted(windows, hit),
              if Admits(windows, hit) then None
              else Some(Max(1, (Current(windows, hit).resetsAt - hit.now).Floor + 1)))
  }

  function Run(hits: seq<Hit>): map<string, Window> {
    if hits == [] then map[] else Counted(Run(hits[..|hits| - 1]), hits[|hits| - 1])
  }

  /** Whether the last hit of a run is admitted. */
  predicate Admitted(hits: seq<Hit>)
    requires hits != []
  {
    Admits(Run(hits[..|hits| - 1]), hits[|hits| - 1])
  }

  /** How many hits on a key are admitted at a time from `from` on and before `to`. */
  function AdmittedBetween(hits: seq<Hit>, key: string, from: real, to: real): nat {
    if hits == [] then 0
    else
      var last := hits[|hits| - 1];
      AdmittedBetween(hits[..|hits| - 1], key, from, to)
      + if last.key == key && from <= last.now < to && Admitted(hits) then 1 else 0
  }

  /** The clock never goes back, and a key always has the same limit and window. */
  ghost predicate Steady(hits: seq<Hit>, key: string, limit: nat, seconds: nat) {
    && (forall i, j | 0 <= i < j < |hits| :: hits[i].now <= hits[j].now)
    && (forall i | 0 <= i < |hits| && hits[i].key == key :: hits[i].limit == limit && hits[i].seconds == seconds)
  }

  function Least(a: int, b: int): int { if a < b then a else b }

  lemma {:induction false} NothingBeforeItsTime(hits: seq<Hit>, key: string, from: real, to: real)
    requires forall i | 0 <= i < |hits| :: hits[i].now < from
    ensures AdmittedBetween(hits, key, from, to) == 0
  {
    if hits != [] {
      NothingBeforeItsTime(hits[..|hits| - 1], key, from, to);
    }
  }

  /** What the window in force says about the hits admitted so far in an interval of its length. */
  ghost predicate CountedSoFar(
    window: Option<Window>, admitted: nat, limit: nat, seconds: nat, from: real, latest: real)
  {
    match window
    case None => admitted == 0
    case Some(w) =>
      var start := w.resetsAt - seconds as real;
      && start <= latest && w.count >= 1
      && (if start < from then admitted <= Max(0, Least(w.count, limit) - 1)
          else if start < from + seconds as real then admitted <= Max(0, limit - 1) + Least(w.count, limit)
          else admitted <= Max(0, 2 * limit - 1))
  }

  function WindowOf(hits: seq<Hit>, key: string): Option<Window> {
    if key in Run(hits) then Some(Run(hits)[key]) else None
  }

  /** One hit on the key keeps the account. */
  lemma HitIsCounted(
    window: Option<Window>, admitted: nat, hit: Hit, windows: map<string, Window>, from: real, latest: real)
    requires CountedSoFar(window, admitted, hit.limit, hit.seconds, from, latest) && latest <= hit.now
    requires window == if hit.key in windows then Some(windows[hit.key]) else None
    requires hit.now < from ==> admitted == 0
    ensures
      var counts := from <= hit.now < from + hit.seconds as real && Admits(windows, hit);
      CountedSoFar(Some(Counted(windows, hit)[hit.key]), admitted + if counts then 1 else 0,
                   hit.limit, hit.seconds, from, hit.now)
  {}

  lemma {:induction false} RunIsCounted(hits: seq<Hit>, key: string, limit: nat, seconds: nat, from: real, latest: real)
    requires Steady(hits, key, limit, seconds)
    requires forall i | 0 <= i < |hits| :: hits[i].now <= latest
    ensures CountedSoFar(WindowOf(hits, key), AdmittedBetween(hits, key, from, from + seconds as real),
                         limit, seconds, from, latest)
    decreases |hits|
  {
    if hits != [] {
      var before, last := hits[..|hits| - 1], hits[|hits| - 1];
      RunIsCounted(before, key, limit, seconds, from, last.now);
      if last.key == key {
        if last.now < from {
          NothingBeforeItsTime(before, key, from, from + seconds as real);
        }
        HitIsCounted(WindowOf(before, key), AdmittedBetween(before, key, from, from + seconds as real), last,
                     Run(before), from, last.now);
      }
    }
  }

  /**
   However hits arrive, a half-open interval of one window length holds fewer admitted hits than
   twice the limit: a window that opened before the interval spent its first admission outside it.
   */
  lemma FewerThanTwiceTheLimit(hits: seq<Hit>, key: string, limit: nat, seconds: nat, from: real)
    requires Steady(hits, key, limit, seconds)
    ensures AdmittedBetween(hits, key, from, from + seconds as real) <= Max(0, 2 * limit - 1)
  {
    if hits != [] {
      RunIsCounted(hits, key, limit, seconds, from, hits[|hits| - 1].now);
    }
  }

  // ---- the bound is reached ----

  function Burst(hit: Hit, n: nat): seq<Hit> {
    if n == 0 then [] else Burst(hit, n - 1) + [hit]
  }

  lemma {:induction false} BurstCopies(hit: Hit, n: nat)
    ensures |Burst(hit, n)| == n && forall i | 0 <= i < n :: Burst(hit, n)[i] == hit
  {
    if n > 0 {
      BurstCopies(hit, n - 1);
    }
  }

  lemma OneAdmitted(hits: seq<Hit>, hit: Hit, from: real, to: real)
    requires from <= hit.now < to && Current(Run(hits), hit).count < hit.limit
    ensures AdmittedBetween(hits + [hit], hit.key, from, to) == AdmittedBetween(hits, hit.key, from, to) + 1
  {}

  lemma RunAppend(hits: seq<Hit>, hit: Hit)
    ensures Run(hits + [hit]) == Counted(Run(hits), hit)
  {}

  lemma ServedWindow(windows: map<string, Window>, hit: Hit)
    requires hit.seconds >= 1
    ensures Current(Counted(windows, hit), hit) ==
      Window(Current(windows, hit).count + 1, Current(windows, hit).resetsAt)
  {}

  lemma {:induction false} BurstFillsWindow(hits: seq<Hit>, hit: Hit, n: nat)
    requires hit.seconds >= 1
    ensures Current(Run(hits + Burst(hit, n)), hit) ==
      Window(Current(Run(hits), hit).count + n, Current(Run(hits), hit).resetsAt)
  {
    if n == 0 {
      assert hits + [] == hits;
    } else {
      var before := hits + Burst(hit, n - 1);
      calc {
        Current(Run(hits + Burst(hit, n)), hit);
        { assert hits + Burst(hit, n) == before + [hit]; RunAppend(before, hit); }
        Current(Counted(Run(before), hit), hit);
        { ServedWindow(Run(before), hit); }
        Window(Current(Run(before), hit).count + 1, Current(Run(before), hit).resetsAt);
        { BurstFillsWindow(hits, hit, n - 1); }
        Window(Current(Run(hits), hit).count + n, Current(Run(hits), hit).resetsAt);
      }
    }
  }

  /** A burst into an open window is admitted up to what is left of the limit. */
  lemma {:induction false} BurstIsAdmitted(hits: seq<Hit>, hit: Hit, n: nat, from: real, to: real)
    requires hit.seconds >= 1 && from <= hit.now < to
    requires Current(Run(hits), hit).count + n <= hit.limit
    ensures AdmittedBetween(hits + Burst(hit, n), hit.key, from, to) == AdmittedBetween(hits, hit.key, from, to) + n
  {
    if n == 0 {
      assert hits + [] == hits;
    } else {
      var before := hits + Burst(hit, n - 1);
      calc {
        AdmittedBetween(hits + Burst(hit, n), hit.key, from, to);
        { assert hits + Burst(hit, n) == before + [hit]; }
        AdmittedBetween(before + [hit], hit.key, from, to);
        { BurstFillsWindow(hits, hit, n - 1); OneAdmitted(before, hit, from, to); }
        AdmittedBetween(before, hit.key, from, to) + 1;
        { BurstIsAdmitted(hits, hit, n - 1, from, to); }
        AdmittedBetween(hits, hit.key, from, to) + n;
      }
    }
  }

  /** Three bursts: one hit opens a window, the rest of it is used late, and the next is used at once. */
  function Worst(key: string, limit: nat, seconds: nat): seq<Hit>
    requires limit >= 1
  {
    [Hit(key, limit, seconds, 0.0)]
    + Burst(Hit(key, limit, seconds, seconds as real / 2.0), limit - 1)
    + Burst(Hit(key, limit, seconds, seconds as real), limit)
  }

  lemma WorstIsSteady(key: string, limit: nat, seconds: nat)
    requires limit >= 1
    ensures Steady(Worst(key, limit, seconds), key, limit, seconds)
  {
    BurstCopies(Hit(key, limit, seconds, seconds as real / 2.0), limit - 1);
    BurstCopies(Hit(key, limit, seconds, seconds as real), limit);
  }

  /** The first two bursts: one admission before the interval, the rest of the limit in it. */
  lemma LateBurst(first: Hit, late: Hit, next: Hit)
    requires first.limit >= 1 && first.seconds >= 1 && first.now == 0.0
    requires late == first.(now := first.seconds as real / 2.0) && next == first.(now := first.seconds as real)
    ensures var full := [first] + Burst(late, first.limit - 1);
      AdmittedBetween(full, first.key, late.now, late.now + first.seconds as real) == first.limit - 1
      && Current(Run(full), next).count == 0
  {
    var to := late.now + first.seconds as real;
    OpeningHit(first);
    NothingBeforeItsTime([first], first.key, late.now, to);
    BurstIsAdmitted([first], late, first.limit - 1, late.now, to);
    BurstOpensAnew([first], late, first.limit - 1, next);
  }

  /** The bound cannot be lowered, for any limit and window. */
  lemma BoundIsReached(key: string, limit: nat, seconds: nat)
    requires limit >= 1 && seconds >= 1
    ensures Steady(Worst(key, limit, seconds), key, limit, seconds)
    ensures
      var from := seconds as real / 2.0;
      AdmittedBetween(Worst(key, limit, seconds), key, from, from + seconds as real) == 2 * limit - 1
  {
    WorstIsSteady(key, limit, seconds);
    var first := Hit(key, limit, seconds, 0.0);
    var late, next := first.(now := seconds as real / 2.0), first.(now := seconds as real);
    LateBurst(first, late, next);
    BurstIsAdmitted([first] + Burst(late, limit - 1), next, limit, late.now, late.now + seconds as real);
  }

  lemma OpeningHit(hit: Hit)
    ensures Run([hit]) == map[hit.key := Window(1, hit.now + hit.seconds as real)]
  {}

  lemma {:induction false} BurstOpensAnew(hits: seq<Hit>, late: Hit, n: nat, next: Hit)
    requires late.key == next.key && late.now < next.now
    requires late.key in Run(hits) && late.now < Run(hits)[late.key].resetsAt <= next.now
    ensures late.key in Run(hits + Burst(late, n))
    ensures Run(hits + Burst(late, n))[late.key].resetsAt == Run(hits)[late.key].resetsAt
    ensures Current(Run(hits + Burst(late, n)), next) == Window(0, next.now + next.seconds as real)
  {
    if n == 0 {
      assert hits + [] == hits;
    } else {
      BurstOpensAnew(hits, late, n - 1, next);
      var all := hits + Burst(late, n);
      assert all[..|all| - 1] == hits + Burst(late, n - 1) && all[|all| - 1] == late;
    }
  }

  // ---- waiting ----

  lemma {:induction false} OtherKeysDoNotMatter(hits: seq<Hit>, others: seq<Hit>, key: string)
    requires forall i | 0 <= i < |others| :: others[i].key != key
    ensures WindowOf(hits + others, key) == WindowOf(hits, key)
    decreases |others|
  {
    if others == [] {
      assert hits + others == hits;
    } else {
      var n := |others| - 1;
      OtherKeysDoNotMatter(hits, others[..n], key);
      assert (hits + others)[..|hits + others| - 1] == hits + others[..n];
    }
  }

  /**
   A refused caller is told a positive number of seconds that outlasts the window that refused it,
   by at most one.  A hit after that wait, with none on the key in between, is admitted.
   */
  lemma WaitOutlastsWindow(hits: seq<Hit>, hit: Hit, others: seq<Hit>, again: Hit)
    requires Serve(Run(hits), hit).wait.Some?
    requires forall i | 0 <= i < |others| :: others[i].key != hit.key
    requires again.key == hit.key && again.now >= hit.now + Serve(Run(hits), hit).wait.value as real
    ensures
      var wait := Serve(Run(hits), hit).wait.value;
      var resetsAt := Current(Run(hits), hit).resetsAt;
      wait >= 1 && resetsAt < hit.now + wait as real <= resetsAt + 1.0
    ensures Admitted(hits + [hit] + others + [again]) <==> again.limit >= 1
  {
    var served := hits + [hit];
    assert served[..|hits|] == hits;
    OtherKeysDoNotMatter(served, others, hit.key);
    var all := served + others + [again];
    assert all[..|all| - 1] == served + others && all[|all| - 1] == again;
  }

  class MemoryRateLimiter {
    var windows: map<string, Window>

    constructor ()
      ensures windows == map[]
    {
      windows := map[];
    }

    /** Counts a hit, opening a window if the last one has ended. */
    method CountHit(key: string, limit: nat, seconds: nat, now: real) returns (wait: Option<int>)
      modifies this
      ensures HitResult(windows, wait) == Serve(old(windows), Hit(key, limit, seconds, now))
    {
      if key !in windows || windows[key].resetsAt <= now {
        windows := windows[key := Window(0, now + seconds as real)];
      }
      var window := windows[key].(count := windows[key].count + 1);
      windows := windows[key := window];
      if window.count <= limit {
        return None;
      }
      return Some(Max(1, (window.resetsAt - now).Floor + 1));
    }
  }
}
