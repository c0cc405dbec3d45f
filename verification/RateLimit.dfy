/** The token bucket of one client, kept in two Redis keys that expire together. */
module RateLimit {
  import opened Times

  datatype Config = Config(bucketSize: int, refillRate: int, windowInSec: int)

  /** The instants of one request: the program reads the clock, reads the bucket key, reads the
      last-update key, and runs its MULTI/EXEC. */
  datatype Request = Request(now: Instant, bucketAt: Instant, lastAt: Instant, storeAt: Instant)

  /** The two keys, written in one transaction and gone from deadline on. */
  datatype Stored = Stored(tokens: int, last: int, deadline: Instant)

  type Keys = Option<Stored>

  predicate SeesBucket(s: Keys, q: Request) {
    s.Some? && q.bucketAt < s.value.deadline
  }

  predicate SeesLast(s: Keys, q: Request) {
    s.Some? && q.lastAt < s.value.deadline
  }

  /** The tokens after the refill. */
  function Refilled(c: Config, s: Keys, q: Request): int {
    var tokens := if SeesBucket(s, q) then s.value.tokens else c.bucketSize;
    var last := if SeesLast(s, q) then s.value.last else Unix(q.now);
    Min(tokens + (Unix(q.now) - last) * c.refillRate, c.bucketSize)
  }

  predicate Admits(c: Config, s: Keys, q: Request) {
    Refilled(c, s, q) > 0
  }

  /** A refused request writes nothing. */
  function Served(c: Config, s: Keys, q: Request): Keys {
    if Admits(c, s, q)
    then Some(Stored(Refilled(c, s, q) - 1, Unix(q.now), q.storeAt + c.windowInSec * NS))
    else s
  }

  // ---------- runs of one client ----------

  /** One client served sequentially under a monotone clock. */
  ghost predicate Sequential(qs: seq<Request>) {
    && (forall i | 0 <= i < |qs| :: qs[i].now <= qs[i].bucketAt <= qs[i].lastAt <= qs[i].storeAt)
    && (forall i, j | 0 <= i < j < |qs| :: qs[i].storeAt <= qs[j].now)
  }

  function After(c: Config, qs: seq<Request>): Keys {
    if qs == [] then None else Served(c, After(c, qs[..|qs| - 1]), qs[|qs| - 1])
  }

  function Admitted(c: Config, qs: seq<Request>): nat {
    if qs == [] then 0
    else Admitted(c, qs[..|qs| - 1]) + if Admits(c, After(c, qs[..|qs| - 1]), qs[|qs| - 1]) then 1 else 0
  }

  /** How often a request was admitted on a bucket made afresh: the first time, and after every
      expiry of the keys. */
  function Fresh(c: Config, qs: seq<Request>): nat {
    if qs == [] then 0
    else
      var s, q := After(c, qs[..|qs| - 1]), qs[|qs| - 1];
      Fresh(c, qs[..|qs| - 1]) + if Admits(c, s, q) && !SeesBucket(s, q) then 1 else 0
  }

  /** Expiries of the keys that a request found. */
  function Expiries(c: Config, qs: seq<Request>): nat {
    if Fresh(c, qs) == 0 then 0 else Fresh(c, qs) - 1
  }

  /** Whole seconds from the first request to the last, as the program reads them. */
  function Seconds(qs: seq<Request>): int
    requires qs != []
  {
    Unix(qs[|qs| - 1].now) - Unix(qs[0].now)
  }

  lemma ButLast(qs: seq<Request>)
    requires qs != [] && Sequential(qs)
    ensures Sequential(qs[..|qs| - 1])
    ensures |qs| > 1 ==> qs[..|qs| - 1][0] == qs[0]
  {
  }

  // ---------- stored tokens ----------

  /** What is stored is a number of tokens from 0 to one less than the bucket. */
  lemma {:induction false} StoredInRange(c: Config, qs: seq<Request>)
    ensures After(c, qs).Some? ==> 0 <= After(c, qs).value.tokens < c.bucketSize
  {
    if qs != [] {
      StoredInRange(c, qs[..|qs| - 1]);
    }
  }

  /** The stored second is the reading of an earlier request of the run. */
  lemma {:induction false} LastIsPast(c: Config, qs: seq<Request>)
    requires Sequential(qs) && After(c, qs).Some?
    ensures qs != [] && Unix(qs[0].now) <= After(c, qs).value.last <= Unix(qs[|qs| - 1].now)
    ensures After(c, qs).value.deadline >= qs[0].storeAt + c.windowInSec * NS
    ensures After(c, qs).value.deadline <= qs[|qs| - 1].storeAt + c.windowInSec * NS
    ensures After(c, qs).value.last * NS + c.windowInSec * NS <= After(c, qs).value.deadline
  {
    ButLast(qs);
    if !Admits(c, After(c, qs[..|qs| - 1]), qs[|qs| - 1]) {
      LastIsPast(c, qs[..|qs| - 1]);
    }
  }

  // ---------- the admission bound ----------

  lemma Grow(b: int, r: int, n: nat, x: int, y: int)
    requires r >= 0 && x <= y
    ensures b * (n + 1) == b * n + b && r * x <= r * y
  {
  }

  /** Admitted requests and stored tokens together never exceed a bucket for every fresh start and
      the refill up to the stored second. */
  ghost predicate Within(c: Config, qs: seq<Request>) {
    match After(c, qs)
    case None => Admitted(c, qs) == 0 && Fresh(c, qs) == 0
    case Some(s) =>
      qs != [] && Fresh(c, qs) > 0 &&
      Admitted(c, qs) + s.tokens <= c.bucketSize * Fresh(c, qs) + c.refillRate * (s.last - Unix(qs[0].now))
  }

  lemma {:induction false} RunsStayWithin(c: Config, qs: seq<Request>)
    requires c.refillRate >= 0 && Sequential(qs)
    ensures Within(c, qs)
  {
    if qs != [] {
      var rest, q := qs[..|qs| - 1], qs[|qs| - 1];
      ButLast(qs);
      RunsStayWithin(c, rest);
      OneMoreIsWithin(c, rest, q, qs);
    }
  }

  /** One admission more, charged to the refill. */
  lemma Refill(b: int, r: int, n: nat, a: int, tokens: int, left: int, last: int, now: int, first: int)
    requires r >= 0 && last <= now && a + tokens <= b * n + r * (last - first)
    requires left <= tokens + (now - last) * r - 1 || left <= tokens - 1
    ensures a + 1 + left <= b * n + r * (now - first)
  {
    assert r * (now - first) == r * (last - first) + (now - last) * r;
    assert (now - last) * r >= 0;
  }

  /** One admission more, charged to a new bucket. */
  lemma NewBucket(b: int, r: int, n: nat, a: int, tokens: int, last: int, now: int, first: int)
    requires r >= 0 && last <= now && a + tokens <= b * n + r * (last - first) && tokens >= 0
    ensures a + b <= b * (n + 1) + r * (now - first)
  {
    Refill(b, r, n, a, tokens, tokens - 1, last, now, first);
    assert b * (n + 1) == b * n + b;
  }

  lemma TokensLeft(c: Config, s: Keys, q: Request)
    ensures Refilled(c, s, q) <= c.bucketSize
    ensures SeesBucket(s, q) ==>
              Refilled(c, s, q) <= s.value.tokens + (Unix(q.now) - s.value.last) * c.refillRate ||
              Refilled(c, s, q) <= s.value.tokens
  {
  }

  lemma OneMoreIsWithin(c: Config, rest: seq<Request>, q: Request, qs: seq<Request>)
    requires c.refillRate >= 0 && Sequential(qs) && Sequential(rest)
    requires qs != [] && qs[..|qs| - 1] == rest && qs[|qs| - 1] == q
    requires Within(c, rest)
    ensures Within(c, qs)
  {
    var s := After(c, rest);
    var first := Unix(qs[0].now);
    assert rest != [] ==> qs[0] == rest[0] && rest[|rest| - 1].now <= q.now;
    assert first <= Unix(q.now);
    if Admits(c, s, q) {
      StoredInRange(c, rest);
      TokensLeft(c, s, q);
      hide Sequential, Refilled;
      if s.Some? {
        LastIsPast(c, rest);
        var Stored(tokens, last, _) := s.value;
        assert last <= Unix(q.now);
        if SeesBucket(s, q) {
          Refill(c.bucketSize, c.refillRate, Fresh(c, rest), Admitted(c, rest), tokens, Refilled(c, s, q) - 1,
                 last, Unix(q.now), first);
        } else {
          NewBucket(c.bucketSize, c.refillRate, Fresh(c, rest), Admitted(c, rest), tokens, last, Unix(q.now), first);
        }
      } else {
        NewBucket(c.bucketSize, c.refillRate, 0, 0, 0, first, Unix(q.now), first);
      }
    }
  }

  /** Over any run the admitted requests are at most a bucket for the start and for every expiry, and
      the refill of the elapsed seconds. */
  lemma AdmissionBound(c: Config, qs: seq<Request>)
    requires c.refillRate >= 0 && Sequential(qs) && qs != []
    ensures Admitted(c, qs) <= Max(c.bucketSize, 0) * (Expiries(c, qs) + 1) + c.refillRate * Seconds(qs)
  {
    RunsStayWithin(c, qs);
    StoredInRange(c, qs);
    var s := After(c, qs);
    if s.Some? {
      LastIsPast(c, qs);
      Grow(0, c.refillRate, 0, s.value.last - Unix(qs[0].now), Seconds(qs));
    } else {
      assert qs[0].now <= qs[|qs| - 1].now;
      Grow(0, c.refillRate, 0, 0, Seconds(qs));
      assert c.refillRate * 0 == 0;
      assert Max(c.bucketSize, 0) * 1 >= 0;
    }
  }

  // ---------- how far apart expiries are ----------

  /** A request that meets expired keys comes a whole window after every request admitted before. */
  lemma {:induction false} ExpiryNeedsAWindow(c: Config, qs: seq<Request>, i: nat)
    requires Sequential(qs) && i < |qs| && Admits(c, After(c, qs[..i]), qs[i])
    ensures After(c, qs).Some? && After(c, qs).value.deadline >= qs[i].storeAt + c.windowInSec * NS
  {
    var rest := qs[..|qs| - 1];
    ButLast(qs);
    if i < |qs| - 1 {
      assert rest[..i] == qs[..i];
      ExpiryNeedsAWindow(c, rest, i);
    }
  }

  /** Two buckets made afresh are at least a window apart. */
  lemma ExpiriesAreAWindowApart(c: Config, qs: seq<Request>, i: nat, j: nat)
    requires Sequential(qs) && i < j < |qs|
    requires Admits(c, After(c, qs[..i]), qs[i])
    requires Admits(c, After(c, qs[..j]), qs[j]) && !SeesBucket(After(c, qs[..j]), qs[j])
    ensures qs[j].bucketAt - qs[i].storeAt >= c.windowInSec * NS
  {
    assert qs[..j][..i] == qs[..i];
    ExpiryNeedsAWindow(c, qs[..j], i);
  }

  /** So a run cannot hold more expiries than windows. */
  lemma {:induction false} ExpiriesFitInTheRun(c: Config, qs: seq<Request>)
    requires c.windowInSec >= 0 && Sequential(qs) && qs != []
    ensures Expiries(c, qs) * (c.windowInSec * NS) <= qs[|qs| - 1].storeAt - qs[0].storeAt
    ensures After(c, qs).Some? ==>
              Expiries(c, qs) * (c.windowInSec * NS) <= After(c, qs).value.deadline - c.windowInSec * NS - qs[0].storeAt
    ensures After(c, qs).None? ==> Fresh(c, qs) == 0
  {
    var rest, q := qs[..|qs| - 1], qs[|qs| - 1];
    ButLast(qs);
    var w := c.windowInSec * NS;
    if rest != [] {
      ExpiriesFitInTheRun(c, rest);
      assert (Expiries(c, rest) + 1) * w == Expiries(c, rest) * w + w;
    } else {
      assert Fresh(c, rest) == 0 && Expiries(c, qs) == 0;
      assert Expiries(c, qs) * w == 0;
    }
  }

  // ---------- when the expiry does no harm ----------

  /** Requests served in no time, as far as the clocks can tell. */
  ghost predicate Prompt(qs: seq<Request>) {
    forall i | 0 <= i < |qs| :: qs[i] == At(qs[i].now)
  }

  function At(t: Instant): Request {
    Request(t, t, t, t)
  }

  /** The bound a token bucket is for: one bucket, and the refill. */
  ghost predicate PlainBound(c: Config) {
    forall qs | Sequential(qs) && Prompt(qs) && qs != [] ::
      Admitted(c, qs) <= Max(c.bucketSize, 0) + c.refillRate * Seconds(qs)
  }

  /** As Within, without an allowance for expiries. */
  ghost predicate WithinOne(c: Config, qs: seq<Request>) {
    match After(c, qs)
    case None => Admitted(c, qs) == 0
    case Some(s) =>
      qs != [] && Admitted(c, qs) + s.tokens <= c.bucketSize + c.refillRate * (s.last - Unix(qs[0].now))
  }

  lemma PromptTokens(c: Config, s: Keys, t: Instant)
    requires s.Some? && c.refillRate >= 0 && c.bucketSize <= c.refillRate * c.windowInSec
    requires 0 <= s.value.tokens && s.value.last <= Unix(t)
    requires s.value.last * NS + c.windowInSec * NS <= s.value.deadline
    ensures Refilled(c, s, At(t)) <= s.value.tokens + (Unix(t) - s.value.last) * c.refillRate
  {
    if !SeesBucket(s, At(t)) {
      assert Unix(t) - s.value.last >= c.windowInSec;
      Grow(0, c.refillRate, 0, c.windowInSec, Unix(t) - s.value.last);
    }
  }

  /** What an expiry restores had been refilled anyway if a window fills the bucket. */
  lemma {:induction false} PromptWithin(c: Config, qs: seq<Request>)
    requires c.refillRate >= 0 && c.windowInSec >= 0 && c.bucketSize <= c.refillRate * c.windowInSec
    requires Sequential(qs) && Prompt(qs)
    ensures WithinOne(c, qs)
  {
    if qs != [] {
      var rest, q := qs[..|qs| - 1], qs[|qs| - 1];
      ButLast(qs);
      PromptWithin(c, rest);
      var s := After(c, rest);
      assert q == At(q.now);
      hide Refilled, SeesBucket, SeesLast, Sequential, Prompt;
      if Admits(c, s, q) {
        PromptStep(c, rest, q, qs);
      }
    }
  }

  lemma PromptStep(c: Config, rest: seq<Request>, q: Request, qs: seq<Request>)
    requires c.refillRate >= 0 && c.windowInSec >= 0 && c.bucketSize <= c.refillRate * c.windowInSec
    requires Sequential(qs) && Sequential(rest) && q == At(q.now)
    requires qs != [] && qs[..|qs| - 1] == rest && qs[|qs| - 1] == q
    requires WithinOne(c, rest) && Admits(c, After(c, rest), q)
    ensures WithinOne(c, qs)
  {
    var s := After(c, rest);
    var first := Unix(qs[0].now);
    assert qs[0].now <= q.now;
    StoredInRange(c, rest);
    if s.Some? {
      LastIsPast(c, rest);
      PromptTokens(c, s, q.now);
      assert c.refillRate * (Unix(q.now) - first) ==
             c.refillRate * (s.value.last - first) + (Unix(q.now) - s.value.last) * c.refillRate;
    } else {
      Grow(0, c.refillRate, 0, 0, Unix(q.now) - first);
    }
  }

  lemma PromptBound(c: Config, qs: seq<Request>)
    requires c.refillRate >= 0 && c.windowInSec >= 0 && c.bucketSize <= c.refillRate * c.windowInSec
    requires Sequential(qs) && Prompt(qs) && qs != []
    ensures Admitted(c, qs) <= Max(c.bucketSize, 0) + c.refillRate * Seconds(qs)
  {
    PromptWithin(c, qs);
    StoredInRange(c, qs);
    var s := After(c, qs);
    Grow(0, c.refillRate, 0, 0, Seconds(qs));
    if s.Some? {
      LastIsPast(c, qs);
      Grow(0, c.refillRate, 0, s.value.last - Unix(qs[0].now), Seconds(qs));
    }
  }

  function Burst(t: Instant, n: nat): seq<Request> {
    seq(n, i => At(t))
  }

  lemma {:induction false} FirstBurst(c: Config, n: nat)
    requires n <= c.bucketSize && c.windowInSec > 0
    ensures Admitted(c, Burst(0, n)) == n
    ensures n > 0 ==> After(c, Burst(0, n)) == Some(Stored(c.bucketSize - n, 0, c.windowInSec * NS))
  {
    if n > 0 {
      assert Burst(0, n)[..n - 1] == Burst(0, n - 1);
      FirstBurst(c, n - 1);
    }
  }

  /** Two full bursts, the second when the keys have just expired. */
  function TwoBursts(c: Config, n: nat): seq<Request> {
    Burst(0, Max(c.bucketSize, 0)) + Burst(c.windowInSec * NS, n)
  }

  lemma ServedInBurst(c: Config, tokens: int, w: int)
    requires w == c.windowInSec > 0
    ensures Admits(c, Some(Stored(tokens, w, 2 * w * NS)), At(w * NS)) == (0 < Min(tokens, c.bucketSize))
    ensures Served(c, Some(Stored(tokens, w, 2 * w * NS)), At(w * NS)) ==
            if 0 < Min(tokens, c.bucketSize) then Some(Stored(Min(tokens, c.bucketSize) - 1, w, 2 * w * NS))
            else Some(Stored(tokens, w, 2 * w * NS))
    ensures c.bucketSize > 0 ==>
              Admits(c, Some(Stored(0, 0, w * NS)), At(w * NS)) &&
              Served(c, Some(Stored(0, 0, w * NS)), At(w * NS)) == Some(Stored(c.bucketSize - 1, w, 2 * w * NS))
  {
    assert (w - w) * c.refillRate == 0;
  }

  lemma {:induction false} SecondBurst(c: Config, n: nat)
    requires 0 < c.bucketSize && n <= c.bucketSize && c.windowInSec > 0
    ensures Admitted(c, TwoBursts(c, n)) == c.bucketSize + n
    ensures After(c, TwoBursts(c, n)) ==
              if n == 0 then Some(Stored(0, 0, c.windowInSec * NS))
              else Some(Stored(c.bucketSize - n, c.windowInSec, 2 * c.windowInSec * NS))
  {
    hide Refilled;
    var qs := TwoBursts(c, n);
    if n == 0 {
      assert qs == Burst(0, c.bucketSize);
      FirstBurst(c, c.bucketSize);
    } else {
      assert qs[..|qs| - 1] == TwoBursts(c, n - 1) && qs[|qs| - 1] == At(c.windowInSec * NS);
      SecondBurst(c, n - 1);
      ServedInBurst(c, c.bucketSize - (n - 1), c.windowInSec);
    }
  }

  lemma TwoBurstsAreARun(c: Config)
    requires c.windowInSec > 0 && c.bucketSize > 0
    ensures var qs := TwoBursts(c, c.bucketSize);
            qs != [] && Sequential(qs) && Prompt(qs) && Seconds(qs) == c.windowInSec
  {
  }

  lemma BurstsBreakTheBound(c: Config)
    requires c.refillRate >= 0 && c.windowInSec > 0 && c.bucketSize > c.refillRate * c.windowInSec
    ensures !PlainBound(c)
  {
    Grow(0, c.refillRate, 0, 0, c.windowInSec);
    assert c.refillRate * 0 == 0;
    TwoBurstsAreARun(c);
    SecondBurst(c, c.bucketSize);
    hide TwoBursts, Sequential, Prompt, Seconds, Admitted, After;
    var qs := TwoBursts(c, c.bucketSize);
    assert Admitted(c, qs) > Max(c.bucketSize, 0) + c.refillRate * Seconds(qs);
  }

  /** The bucket bounds admissions over every run of prompt requests, whatever expires, exactly when
      the refill of one window fills the bucket. */
  lemma PlainBoundIff(c: Config)
    requires c.refillRate >= 0 && c.windowInSec > 0
    ensures PlainBound(c) <==> c.bucketSize <= c.refillRate * c.windowInSec
  {
    if c.bucketSize <= c.refillRate * c.windowInSec {
      forall qs: seq<Request> | Sequential(qs) && Prompt(qs) && qs != []
        ensures Admitted(c, qs) <= Max(c.bucketSize, 0) + c.refillRate * Seconds(qs)
      {
        PromptBound(c, qs);
      }
    } else {
      BurstsBreakTheBound(c);
    }
  }

  /** The defaults of the program are on the wrong side. */
  lemma DefaultsBreakTheBound()
    ensures !PlainBound(Config(100, 10, 1))
  {
    PlainBoundIff(Config(100, 10, 1));
  }

  // ---------- what is admitted ----------

  /** What a burst at t finds: the tokens stored and the refill of the whole seconds since, up to a bucket; a
      whole bucket if the keys are absent or have expired. */
  function Available(c: Config, s: Keys, t: Instant): nat {
    Max(0, if s.Some? && t < s.value.deadline
           then Min(c.bucketSize, s.value.tokens + (t / 1_000_000_000 - s.value.last) * c.refillRate)
           else c.bucketSize)
  }

  lemma BurstEnds(c: Config, qs: seq<Request>, t: Instant, n: nat)
    requires n > 0
    ensures var all := qs + Burst(t, n);
            all != [] && all[..|all| - 1] == qs + Burst(t, n - 1) && all[|all| - 1] == At(t)
  {
    assert Burst(t, n)[..n - 1] == Burst(t, n - 1);
  }

  /** The keys after n requests of a burst at t. */
  function AfterBurst(c: Config, s: Keys, t: Instant, n: nat): Keys {
    var k := Min(n, Available(c, s, t));
    if k == 0 then s
    else Some(Stored(Available(c, s, t) - k, Unix(t), t + c.windowInSec * NS))
  }

  lemma OneOfBurst(c: Config, s: Keys, t: Instant, n: nat)
    requires c.windowInSec > 0
    ensures Admits(c, AfterBurst(c, s, t, n), At(t)) <==> n < Available(c, s, t)
    ensures Served(c, AfterBurst(c, s, t, n), At(t)) == AfterBurst(c, s, t, n + 1)
  {
    assert (Unix(t) - Unix(t)) * c.refillRate == 0;
  }

  lemma {:induction false} BurstRuns(c: Config, qs: seq<Request>, t: Instant, n: nat)
    requires c.windowInSec > 0
    ensures Admitted(c, qs + Burst(t, n)) == Admitted(c, qs) + Min(n, Available(c, After(c, qs), t))
    ensures After(c, qs + Burst(t, n)) == AfterBurst(c, After(c, qs), t, n)
  {
    hide AfterBurst, Available, Admits, Served;
    var s := After(c, qs);
    if n == 0 {
      assert qs + Burst(t, 0) == qs;
      NothingYet(c, s, t);
    } else {
      BurstEnds(c, qs, t, n);
      BurstRuns(c, qs, t, n - 1);
      OneOfBurst(c, s, t, n - 1);
    }
  }

  lemma NothingYet(c: Config, s: Keys, t: Instant)
    ensures AfterBurst(c, s, t, 0) == s
  {
  }

  /** How many of n prompt requests are admitted, exactly: after any run, as many as tokens are stored
      together with refillRate for every whole second since they were, up to bucketSize; all the others are
      refused. So the bucket refills as long as its keys live, and is full again when they have expired. */
  lemma BurstAdmitsExactly(c: Config, qs: seq<Request>, t: Instant, n: nat)
    requires c.windowInSec > 0
    ensures After(c, qs).Some? && t < After(c, qs).value.deadline ==>
              var Stored(tokens, last, _) := After(c, qs).value;
              Admitted(c, qs + Burst(t, n)) - Admitted(c, qs) ==
              Min(n, Max(0, Min(c.bucketSize, tokens + (t / 1_000_000_000 - last) * c.refillRate)))
    ensures After(c, qs).None? || t >= After(c, qs).value.deadline ==>
              Admitted(c, qs + Burst(t, n)) - Admitted(c, qs) == Min(n, Max(0, c.bucketSize))
  {
    hide *;
    BurstRuns(c, qs, t, n);
    AvailableExact(c, After(c, qs), t);
  }

  lemma AvailableExact(c: Config, s: Keys, t: Instant)
    ensures s.Some? && t < s.value.deadline ==>
              var Stored(tokens, last, _) := s.value;
              Available(c, s, t) == Max(0, Min(c.bucketSize, tokens + (t / 1_000_000_000 - last) * c.refillRate))
    ensures s.None? || t >= s.value.deadline ==> Available(c, s, t) == Max(0, c.bucketSize)
  {
  }

  // ---------- the code ----------

  /** The two Redis keys of one client. */
  class Bucket {
    var bucket: Option<int>
    var lastUpdate: Option<int>
    var deadline: Instant

    constructor ()
      ensures Valid() && View() == None
    {
      bucket, lastUpdate, deadline := None, None, 0;
    }

    ghost predicate Valid()
      reads this
    {
      bucket.Some? <==> lastUpdate.Some?
    }

    ghost function View(): Keys
      requires Valid()
      reads this
    {
      if bucket.Some? then Some(Stored(bucket.value, lastUpdate.value, deadline)) else None
    }

    /** RateLimit up to c.Next; no Redis call fails. */
    method Allow(c: Config, q: Request) returns (admitted: bool)
      requires Valid()
      modifies this
      ensures Valid() && admitted == old(Admits(c, View(), q))
      ensures View() == old(Served(c, View(), q))
      ensures var second := q.now / 1_000_000_000;
              var tokens := if old(bucket).Some? && q.bucketAt < old(deadline) then old(bucket).value else c.bucketSize;
              var last := if old(bucket).Some? && q.lastAt < old(deadline) then old(lastUpdate).value else second;
              var left := Min(tokens + (second - last) * c.refillRate, c.bucketSize) - 1;
              && (admitted <==> left >= 0)
              && (if admitted then
                    bucket == Some(left) && lastUpdate == Some(second) &&
                    deadline == q.storeAt + c.windowInSec * 1_000_000_000
                  else bucket == old(bucket) && lastUpdate == old(lastUpdate) && deadline == old(deadline))
    {
      var now := Unix(q.now);
      var tokens := c.bucketSize;
      if bucket.Some? && q.bucketAt < deadline {
        tokens := bucket.value;
      }
      var last := now;
      if lastUpdate.Some? && q.lastAt < deadline {
        last := lastUpdate.value;
      }
      var elapsed := now - last;
      var refill := elapsed * c.refillRate;
      tokens := Min(tokens + refill, c.bucketSize);
      if tokens <= 0 {
        return false;
      }
      tokens := tokens - 1;
      bucket, lastUpdate, deadline := Some(tokens), Some(now), q.storeAt + c.windowInSec * NS;
      return true;
    }
  }
}
