/** The limiter as the program keeps it: a table of mutable entries, each filtering its start times in place. The
    methods are proved to do what module RateLimiter says. */
module LimiterTable {
  import opened Domain
  import opened RateLimiter

  /** The start times are the first `len` elements of the buffer. */
  class RateState {
    var buf: array<int>
    var len: nat
    var inflight: nat

    constructor ()
      ensures Valid() && fresh(buf) && View() == IDLE
    {
      buf, len, inflight := new int[4], 0, 0;
    }

    ghost predicate Valid()
      reads this
    {
      len <= buf.Length
    }

    ghost function View(): Entry
      reads this, buf
      requires Valid()
    {
      Entry(buf[..len], inflight)
    }

    /** Moves the times from `cutoff` on to the front of the same buffer. */
    method KeepRecent(cutoff: int)
      requires Valid()
      modifies this`len, buf
      ensures Valid() && View() == old(View()).(started := Recent(old(View()).started, cutoff))
    {
      var kept := 0;
      for i := 0 to len
        invariant kept <= i <= len == old(len)
        invariant buf[..kept] == Recent(old(buf[..i]), cutoff)
        invariant forall j | i <= j < len :: buf[j] == old(buf[j])
      {
        assert old(buf[..i + 1])[..i] == old(buf[..i]);
        if buf[i] >= cutoff {
          buf[kept] := buf[i];
          kept := kept + 1;
        }
      }
      len := kept;
    }

    /** Appends in place while there is room, else moves to a larger buffer. */
    method Append(now: int)
      requires Valid()
      modifies this`len, this`buf, buf
      ensures Valid() && (buf == old(buf) || fresh(buf))
      ensures View() == old(View()).(started := old(View()).started + [now])
    {
      if len == buf.Length {
        var larger := new int[2 * len + 1];
        for i := 0 to len
          invariant len == old(len) == buf.Length && buf == old(buf) && buf[..] == old(buf[..])
          invariant fresh(larger) && larger[..i] == buf[..i]
        {
          larger[i] := buf[i];
        }
        buf := larger;
      }
      buf[len] := now;
      len := len + 1;
    }

    /** The checks of Acquire on the entry of its key. */
    method Admit(config: Config, now: int) returns (d: Decision)
      requires Valid()
      modifies this, buf
      ensures Valid() && (buf == old(buf) || fresh(buf)) && (View(), d) == RateLimiter.Admit(config, old(View()), now)
    {
      KeepRecent(now - MINUTE);
      if config.concurrent > 0 && inflight >= config.concurrent { return TooMany; }
      if config.perMinute > 0 && len >= config.perMinute { return TooFast; }
      inflight := inflight + 1;
      if config.perMinute > 0 { Append(now); }
      d := Admitted;
    }

    method GiveBack(config: Config, now: int)
      requires Valid()
      modifies this, buf
      ensures Valid() && buf == old(buf) && View() == RateLimiter.GiveBack(config, old(View()), now)
    {
      if inflight > 0 { inflight := inflight - 1; }
      if config.perMinute > 0 { KeepRecent(now - MINUTE); }
    }
  }

  class Limiter {
    const config: Config
    var state: map<string, RateState>

    constructor (config: Config)
      ensures Valid() && this.config == config && View() == map[]
    {
      this.config, state := config, map[];
    }

    /** No two keys share an entry or a buffer. */
    ghost predicate Valid()
      reads this, state.Values
    {
      && (forall k <- state :: state[k].Valid())
      && (forall k, m | k in state && m in state && k != m :: state[k] != state[m] && state[k].buf != state[m].buf)
    }

    ghost function Buffers(): set<object>
      reads this, state.Values
    {
      set k | k in state :: state[k].buf
    }

    ghost function View(): Table
      reads this, state.Values, Buffers()
      requires Valid()
    {
      map k | k in state :: state[k].View()
    }

    /** A change to the entry of one key, which may have moved to a new buffer, leaves the others alone. */
    twostate lemma OthersUnchanged(key: string)
      requires old(Valid()) && state == old(state) && key in state && state[key].Valid()
      requires forall k <- state :: k != key ==> unchanged(state[k]) && unchanged(state[k].buf)
      requires state[key].buf == old(state[key].buf) || fresh(state[key].buf)
      ensures Valid() && View() == old(View())[key := state[key].View()]
    {
      StillValid(key);
      forall k | k in state && k != key ensures state[k].View() == old(state[k].View()) {
      }
    }

    twostate lemma StillValid(key: string)
      requires old(Valid()) && state == old(state) && key in state && state[key].Valid()
      requires forall k <- state :: k != key ==> unchanged(state[k])
      requires state[key].buf == old(state[key].buf) || fresh(state[key].buf)
      ensures Valid()
    {
    }

    method Acquire(key: string, now: int) returns (d: Decision)
      requires Valid()
      modifies this`state, state.Values, Buffers()
      ensures Valid() && (View(), d) == AcquireStep(config, old(View()), key, now)
    {
      if key == "" { return Unlimited; }
      AddedIsFree(config, View(), key, now);
      if key !in state { AddEntry(key); }
      d := AdmitExisting(key, now);
    }

    method AdmitExisting(key: string, now: int) returns (d: Decision)
      requires Valid() && key in state && key != ""
      modifies state.Values, Buffers()
      ensures Valid() && (View(), d) == AcquireStep(config, old(View()), key, now)
    {
      d := state[key].Admit(config, now);
      OthersUnchanged(key);
    }

    method AddEntry(key: string)
      requires Valid() && key !in state
      modifies this`state
      ensures Valid() && key in state && fresh(state[key]) && fresh(state[key].buf)
      ensures state == old(state)[key := state[key]] && View() == old(View())[key := IDLE]
    {
      var entry := new RateState();
      state := state[key := entry];
    }

    /** What the closure returned by a successful Acquire does. */
    method Release(key: string, now: int)
      requires Valid()
      modifies this`state, state.Values, Buffers()
      ensures Valid() && View() == ReleaseStep(config, old(View()), key, now)
    {
      if key !in state { return; }
      state[key].GiveBack(config, now);
      OthersUnchanged(key);
      if state[key].inflight == 0 && state[key].len == 0 { RemoveEntry(key); }
    }

    method RemoveEntry(key: string)
      requires Valid() && key in state
      modifies this`state
      ensures Valid() && View() == old(View()) - {key}
    {
      state := state - {key};
    }
  }

  /** Acquire on a table without the key is Acquire after an idle entry was added. */
  lemma AddedIsFree(c: Config, t: Table, key: string, now: int)
    ensures key !in t ==> AcquireStep(c, t[key := IDLE], key, now) == AcquireStep(c, t, key, now) || key == ""
  {
    if key !in t && key != "" {
      var e := RateLimiter.Admit(c, IDLE, now).0;
      assert t[key := IDLE][key := e] == t[key := e];
    }
  }

  /** newCompatRateLimiter; the result is None where the program returns nil, which admits everything. */
  method NewLimiter(perMinute: int, concurrent: int) returns (limiter: Option<Limiter>)
    ensures limiter.None? <==> perMinute <= 0 && concurrent <= 0
    ensures limiter.Some? ==> limiter.value.Valid() && limiter.value.View() == map[]
    ensures limiter.Some? ==> limiter.value.config.perMinute == if perMinute > 0 then perMinute else 0
    ensures limiter.Some? ==> limiter.value.config.concurrent == if concurrent > 0 then concurrent else 0
  {
    var p, c := perMinute, concurrent;
    if p < 0 { p := 0; }
    if c < 0 { c := 0; }
    if p == 0 && c == 0 { return None; }
    var created := new Limiter(Config(p, c));
    limiter := Some(created);
  }
}
