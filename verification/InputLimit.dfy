/** The daemon's input rate limiter (`useInput`): fixed one-minute windows per owner, each starting
at the first input accepted after the last window has passed. Times are milliseconds. */
module InputLimit {
  import opened Options

  const MAX_INPUT: nat := 64 * 1024
  const LIMIT: nat := 256 * 1024
  const WINDOW: int := 60000

  datatype Usage = Usage(startedAt: int, bytes: nat)
  datatype Input = Input(at: int, bytes: nat)

  /** The window that an input at `now` counts in. */
  function Current(usage: Option<Usage>, now: int): Usage {
    if usage.None? || now - usage.value.startedAt >= WINDOW then Usage(now, 0) else usage.value
  }

  predicate Accepts(usage: Option<Usage>, input: Input) {
    input.bytes <= MAX_INPUT && Current(usage, input.at).bytes + input.bytes <= LIMIT
  }

  // ----- What has been accepted -----

  /** Bytes accepted from `low` to `high`, both included. */
  function Sum(accepted: seq<Input>, low: int, high: int): nat {
    if accepted == [] then 0
    else
      var last := accepted[|accepted| - 1];
      Sum(accepted[..|accepted| - 1], low, high) + if low <= last.at <= high then last.bytes else 0
  }

  lemma SumGrows(accepted: seq<Input>, input: Input, low: int, high: int)
    ensures Sum(accepted + [input], low, high) == Sum(accepted, low, high) + if low <= input.at <= high
            then input.bytes else 0
  {
    assert (accepted + [input])[..|accepted|] == accepted;
  }

  /** Splitting an interval, dropping what lies outside the history. */
  lemma {:induction false} SumSplits(accepted: seq<Input>, low: int, mid: int, high: int)
    ensures low <= mid <= high + 1 ==>
            Sum(accepted, low, high) == Sum(accepted, low, mid - 1) + Sum(accepted, mid, high)
    ensures high < low ==> Sum(accepted, low, high) == 0
  {
    if accepted != [] {
      SumSplits(accepted[..|accepted| - 1], low, mid, high);
    }
  }

  lemma {:induction false} SumWidens(accepted: seq<Input>, low: int, high: int, low': int, high': int)
    requires low' <= low && high <= high'
    ensures Sum(accepted, low, high) <= Sum(accepted, low', high')
  {
    if accepted != [] {
      SumWidens(accepted[..|accepted| - 1], low, high, low', high');
    }
  }

  ghost predicate NoneAfter(accepted: seq<Input>, time: int) {
    forall i | 0 <= i < |accepted| :: accepted[i].at <= time
  }

  lemma {:induction false} SumPast(accepted: seq<Input>, low: int, high: int, high': int)
    requires NoneAfter(accepted, high) && high <= high'
    ensures Sum(accepted, low, high') == Sum(accepted, low, high)
  {
    if accepted != [] {
      SumPast(accepted[..|accepted| - 1], low, high, high');
    }
  }

  // ----- The invariant of one owner -----

  /** Bytes accepted in the closed minute that starts at `t`. */
  function Minute(accepted: seq<Input>, t: int): nat {
    Sum(accepted, t, t + WINDOW)
  }

  ghost predicate Bounded(accepted: seq<Input>) {
    forall t: int :: Minute(accepted, t) <= 2 * LIMIT
  }

  /** The window's count is what was accepted since it started; the minute before it holds no more
      than one window's worth. */
  ghost predicate Tracks(accepted: seq<Input>, usage: Option<Usage>, clock: int) {
    && NoneAfter(accepted, clock)
    && Bounded(accepted)
    && (usage.None? ==> accepted == [])
    && (usage.Some? ==>
          var w := usage.value.startedAt;
          && w <= clock && NoneAfter(accepted, w + WINDOW - 1)
          && usage.value.bytes == Sum(accepted, w, clock) <= LIMIT
          && Sum(accepted, w - WINDOW, w - 1) <= LIMIT)
  }

  lemma TimePasses(accepted: seq<Input>, usage: Option<Usage>, clock: int, now: int)
    requires Tracks(accepted, usage, clock) && clock <= now
    ensures Tracks(accepted, usage, now)
  {
    if usage.Some? {
      SumPast(accepted, usage.value.startedAt, clock, now);
    }
  }

  /** The window of `now`, before its input is added: at most one window's worth in the minute before. */
  lemma WindowOpens(accepted: seq<Input>, usage: Option<Usage>, now: int)
    requires Tracks(accepted, usage, now)
    ensures Tracks(accepted, Some(Current(usage, now)), now)
  {
    var w := Current(usage, now).startedAt;
    if usage.Some? && now - usage.value.startedAt >= WINDOW {
      var v := usage.value.startedAt;
      SumWidens(accepted, now - WINDOW, now - 1, v, now);
      SumPast(accepted, now, now - 1, now);
      SumSplits(accepted, now, now, now - 1);
    }
  }

  lemma AcceptedTracks(accepted: seq<Input>, u: Usage, input: Input)
    requires Tracks(accepted, Some(u), input.at) && input.at - u.startedAt < WINDOW
    requires u.bytes + input.bytes <= LIMIT
    ensures Tracks(accepted + [input], Some(u.(bytes := u.bytes + input.bytes)), input.at)
  {
    var now, w := input.at, u.startedAt;
    SumGrows(accepted, input, w, now);
    SumGrows(accepted, input, w - WINDOW, w - 1);
    forall t: int ensures Minute(accepted + [input], t) <= 2 * LIMIT {
      SumGrows(accepted, input, t, t + WINDOW);
      assert Minute(accepted, t) <= 2 * LIMIT;
      if t <= now <= t + WINDOW {
        StraddlesTwo(accepted, u, now, t);
      }
    }
  }

  /** An interval that reaches the present meets at most this window and the one before. */
  lemma StraddlesTwo(accepted: seq<Input>, u: Usage, now: int, t: int)
    requires Tracks(accepted, Some(u), now) && now - u.startedAt < WINDOW && t <= now <= t + WINDOW
    ensures Sum(accepted, t, t + WINDOW) <= LIMIT + u.bytes
  {
    var w := u.startedAt;
    SumPast(accepted, t, now, t + WINDOW);
    if t <= w {
      SumSplits(accepted, t, w, now);
      SumWidens(accepted, t, w - 1, w - WINDOW, w - 1);
    } else {
      SumWidens(accepted, t, now, w, now);
    }
  }

  lemma NothingTried()
    ensures Tracks([], None, 0)
  {
    assert forall t: int :: Minute([], t) == 0;
  }

  // ----- The limiter -----

  class Limiter {
    var usage: map<string, Usage>
    ghost var accepted: map<string, seq<Input>>
    ghost var clock: int

    ghost function History(owner: string): seq<Input>
      reads this
    {
      if owner in accepted then accepted[owner] else []
    }

    function UsageOf(owner: string): Option<Usage>
      reads this
    {
      if owner in usage then Some(usage[owner]) else None
    }

    ghost predicate Valid()
      reads this
    {
      forall owner :: Tracks(History(owner), UsageOf(owner), clock)
    }

    constructor ()
      ensures Valid() && accepted == map[]
    {
      usage, accepted, clock := map[], map[], 0;
      new;
      NothingTried();
    }

    /** `useInput`. A rejected input leaves every budget as it was. */
    method UseInput(owner: string, bytes: nat, now: int) returns (ok: bool)
      requires Valid() && clock <= now
      modifies this
      ensures Valid() && clock == now
      ensures ok == old(Accepts(UsageOf(owner), Input(now, bytes)))
      ensures Account(UsageOf(owner), History(owner)) ==
              Try(old(Account(UsageOf(owner), History(owner))), Input(now, bytes))
      ensures !ok ==> UsageOf(owner) == old(UsageOf(owner)) && History(owner) == old(History(owner))
      ensures forall other | other != owner ::
              History(other) == old(History(other)) && UsageOf(other) == old(UsageOf(other))
    {
      hide Tracks;
      forall o ensures Tracks(History(o), UsageOf(o), now) {
        TimePasses(History(o), UsageOf(o), clock, now);
      }
      clock := now;
      assert forall o :: History(o) == old(History(o)) && UsageOf(o) == old(UsageOf(o));
      assert Valid();
      if bytes > MAX_INPUT {
        return false;
      }
      var current := if owner !in usage || now - usage[owner].startedAt >= WINDOW then Usage(now, 0) else usage[owner];
      if current.bytes + bytes > LIMIT {
        return false;
      }
      WindowOpens(History(owner), UsageOf(owner), now);
      AcceptedTracks(History(owner), current, Input(now, bytes));
      current := current.(bytes := current.bytes + bytes);
      accepted := accepted[owner := History(owner) + [Input(now, bytes)]];
      usage := usage[owner := current];
      ok := true;
      assert History(owner) == old(History(owner)) + [Input(now, bytes)] && UsageOf(owner) == Some(current);
      assert forall o | o != owner :: History(o) == old(History(o)) && UsageOf(o) == old(UsageOf(o));
    }
  }

  // ----- Whole runs -----

  datatype Account = Account(usage: Option<Usage>, accepted: seq<Input>)

  /** One owner's account after the inputs tried so far. */
  function Run(tried: seq<Input>): Account {
    if tried == [] then Account(None, [])
    else Try(Run(tried[..|tried| - 1]), tried[|tried| - 1])
  }

  function Try(a: Account, input: Input): Account {
    if !Accepts(a.usage, input) then a
    else
      var current := Current(a.usage, input.at);
      Account(Some(current.(bytes := current.bytes + input.bytes)), a.accepted + [input])
  }

  predicate InOrder(tried: seq<Input>) {
    forall i, j | 0 <= i < j < |tried| :: tried[i].at <= tried[j].at
  }

  lemma {:induction false} RunTracks(tried: seq<Input>, now: int)
    requires InOrder(tried) && NoneAfter(tried, now)
    ensures var a := Run(tried); Tracks(a.accepted, a.usage, now)
  {
    if tried == [] {
      NothingTried();
      assert forall t: int :: Minute([], t) == 0;
    } else {
      var n := |tried| - 1;
      var a, input := Run(tried[..n]), tried[n];
      RunTracks(tried[..n], input.at);
      hide Tracks;
      if Accepts(a.usage, input) {
        WindowOpens(a.accepted, a.usage, input.at);
        AcceptedTracks(a.accepted, Current(a.usage, input.at), input);
      }
      TimePasses(Run(tried).accepted, Run(tried).usage, input.at, now);
    }
  }

  /** Whatever is tried, any closed interval of a minute sees at most twice the limit accepted. */
  lemma AnyMinuteIsBounded(tried: seq<Input>, t: int)
    requires InOrder(tried)
    ensures Minute(Run(tried).accepted, t) <= 2 * LIMIT
  {
    if tried == [] {
      assert Minute([], t) == 0;
    } else {
      RunTracks(tried, tried[|tried| - 1].at);
    }
  }

  function Repeat(input: Input, n: nat): seq<Input> {
    if n == 0 then [] else Repeat(input, n - 1) + [input]
  }

  lemma RunSteps(tried: seq<Input>, input: Input)
    ensures Run(tried + [input]) == Try(Run(tried), input)
  {
    hide Try;
    assert (tried + [input])[..|tried|] == tried;
  }

  /** A burst of the largest inputs fills an empty window. */
  lemma {:induction false} Burst(tried: seq<Input>, w: int, at: int, n: nat)
    requires n <= 4 && Current(Run(tried).usage, at) == Usage(w, 0) && at - w < WINDOW
    ensures var full := Run(tried + Repeat(Input(at, MAX_INPUT), n));
            && Current(full.usage, at) == Usage(w, n * MAX_INPUT)
            && full.accepted == Run(tried).accepted + Repeat(Input(at, MAX_INPUT), n)
            && (n > 0 ==> full.usage.Some?)
  {
    hide Run, Repeat, Try, Current;
    var input := Input(at, MAX_INPUT);
    if n == 0 {
      RepeatNone(tried, input);
      RepeatNone(Run(tried).accepted, input);
    } else {
      Burst(tried, w, at, n - 1);
      RepeatJoins(tried, input, n);
      RepeatJoins(Run(tried).accepted, input, n);
      RunSteps(tried + Repeat(input, n - 1), input);
      TryFills(Run(tried + Repeat(input, n - 1)), w, at, n);
    }
  }

  lemma TryFills(a: Account, w: int, at: int, n: nat)
    requires 0 < n <= 4 && Current(a.usage, at) == Usage(w, (n - 1) * MAX_INPUT) && at - w < WINDOW
    ensures var b := Try(a, Input(at, MAX_INPUT));
            b.usage.Some? && Current(b.usage, at) == Usage(w, n * MAX_INPUT) &&
                b.accepted == a.accepted + [Input(at, MAX_INPUT)]
  {
  }

  lemma {:induction false} RepeatIs(input: Input, n: nat)
    ensures |Repeat(input, n)| == n && forall i | 0 <= i < n :: Repeat(input, n)[i] == input
  {
    if n > 0 { RepeatIs(input, n - 1); }
  }

  lemma RepeatNone(before: seq<Input>, input: Input)
    ensures before + Repeat(input, 0) == before
  {
  }

  lemma RepeatJoins(before: seq<Input>, input: Input, n: nat)
    requires n > 0
    ensures before + Repeat(input, n) == before + Repeat(input, n - 1) + [input]
  {
  }

  lemma {:induction false} SumOfBurst(accepted: seq<Input>, at: int, n: nat, low: int, high: int)
    requires low <= at <= high
    ensures Sum(accepted + Repeat(Input(at, MAX_INPUT), n), low, high) == Sum(accepted, low, high) + n * MAX_INPUT
  {
    var input := Input(at, MAX_INPUT);
    if n == 0 {
      assert accepted + [] == accepted;
    } else {
      SumOfBurst(accepted, at, n - 1, low, high);
      SumGrows(accepted + Repeat(input, n - 1), input, low, high);
      assert accepted + Repeat(input, n) == accepted + Repeat(input, n - 1) + [input];
    }
  }

  /** Twice the limit is reached: two windows can meet inside one minute. */
  lemma BoundIsReached(first: Input)
    requires first == Input(0, 0)
    ensures var tried := [first] + Repeat(Input(59999, MAX_INPUT), 4) + Repeat(Input(60000, MAX_INPUT), 4);
            InOrder(tried) && Minute(Run(tried).accepted, 0) == 2 * LIMIT
  {
    RepeatIs(Input(59999, MAX_INPUT), 4);
    RepeatIs(Input(60000, MAX_INPUT), 4);
    hide Repeat;
    var started := [first];
    var filled := started + Repeat(Input(59999, MAX_INPUT), 4);
    assert started[..0] == [];
    assert Run(started) == Account(Some(Usage(0, 0)), [first]);
    Burst(started, 0, 59999, 4);
    Burst(filled, 60000, 60000, 4);
    SumOfBurst([first], 59999, 4, 0, WINDOW);
    SumOfBurst(Run(filled).accepted, 60000, 4, 0, WINDOW);
    assert Sum([first], 0, WINDOW) == 0 by { assert [first][..0] == []; }
  }
}
