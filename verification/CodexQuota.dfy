/** Per-family quota arithmetic of the Codex driver: which model families may be served, until when a bucket as
    a whole is exhausted, and how legacy state is migrated. Utilisation is a real number. */
module CodexQuota {
  import opened Domain

  datatype Limits = Limits(primaryUtil: real, primaryReset: int, secondaryUtil: real, secondaryReset: int, name: string)

  /** `legacy` holds the flat fields of old states; `families` may be absent. */
  datatype CodexState = CodexState(families: Option<map<string, Limits>>, legacy: Limits)

  const NO_LIMITS := Limits(0.0, 0, 0.0, 0, "")
  const FULL := 0.99
  const STANDARD := ""

  predicate LegacySet(s: CodexState) {
    s.legacy.primaryUtil > 0.0 || s.legacy.primaryReset > 0 || s.legacy.secondaryUtil > 0.0 || s.legacy.secondaryReset > 0
  }

  function Flat(s: CodexState): Limits {
    s.legacy.(name := "")
  }

  function Family(s: CodexState, prefix: string): Limits {
    if s.families.Some? && prefix in s.families.value then s.families.value[prefix]
    else if prefix == STANDARD && LegacySet(s) then Flat(s)
    else NO_LIMITS
  }

  function AllFamilies(s: CodexState): set<string> {
    if s.families.Some? && s.families.value != map[] then s.families.value.Keys
    else if LegacySet(s) then {STANDARD}
    else {}
  }

  /** Any listing of the recorded families, such as the sorted one. */
  predicate Lists(order: seq<string>, s: CodexState) {
    (forall p <- order :: p in AllFamilies(s)) && (forall p <- AllFamilies(s) :: p in order)
  }

  predicate Exhausted(util: real, reset: int, now: int) {
    util >= FULL && reset > now
  }

  /** No window of the family is exhausted. */
  predicate Servable(f: Limits, now: int) {
    !Exhausted(f.primaryUtil, f.primaryReset, now) && !Exhausted(f.secondaryUtil, f.secondaryReset, now)
  }

  /** An unreadable state serves everybody; `familyOf` maps a model to its family. */
  predicate CanServe(state: Option<CodexState>, familyOf: string -> string, model: string, now: int) {
    state.None? || Servable(Family(state.value, familyOf(model)), now)
  }

  function FamilyCooldown(f: Limits, now: int): int {
    var cd := if Exhausted(f.primaryUtil, f.primaryReset, now) then f.primaryReset else 0;
    if Exhausted(f.secondaryUtil, f.secondaryReset, now) && f.secondaryReset > cd then f.secondaryReset else cd
  }

  /** The loop over families: None once a family has capacity, else the least cooldown so far, 0 at the start. */
  function Earliest(s: CodexState, now: int, order: seq<string>): Option<int> {
    if order == [] then Some(0)
    else
      var before, cd := Earliest(s, now, order[..|order| - 1]), FamilyCooldown(Family(s, order[|order| - 1]), now);
      if before.None? || cd == 0 then None
      else if before.value == 0 || cd < before.value then Some(cd) else before
  }

  /** The bucket's exhausted cooldown; ZERO_TIME when there is none. */
  function ExhaustedCooldown(state: Option<CodexState>, now: int, order: seq<string>): int {
    if state.None? || order == [] then ZERO_TIME
    else
      match Earliest(state.value, now, order)
      case None => ZERO_TIME
      case Some(e) => if e > 0 then e else ZERO_TIME
  }

  /** The loop that computes it, returning as soon as a family has capacity. */
  method ComputeExhaustedCooldown(state: Option<CodexState>, now: int, families: seq<string>) returns (t: int)
    ensures t == ExhaustedCooldown(state, now, families)
  {
    if state.None? || families == [] { return ZERO_TIME; }
    var s := state.value;
    var earliest := 0;
    for i := 0 to |families|
      invariant Earliest(s, now, families[..i]) == Some(earliest)
    {
      assert families[..i + 1][..i] == families[..i];
      var cd := ComputeFamilyCooldown(Family(s, families[i]), now);
      if cd == 0 {
        CapacityEnds(s, now, families, i + 1);
        return ZERO_TIME;
      }
      if earliest == 0 || cd < earliest { earliest := cd; }
    }
    assert families[..|families|] == families;
    t := if earliest > 0 then earliest else ZERO_TIME;
  }

  method ComputeFamilyCooldown(f: Limits, now: int) returns (cd: int)
    ensures cd == FamilyCooldown(f, now)
  {
    cd := 0;
    if f.primaryUtil >= FULL && f.primaryReset > now { cd := f.primaryReset; }
    if f.secondaryUtil >= FULL && f.secondaryReset > now && f.secondaryReset > cd { cd := f.secondaryReset; }
  }

  lemma {:induction false} CapacityEnds(s: CodexState, now: int, families: seq<string>, i: nat)
    requires i <= |families| && Earliest(s, now, families[..i]).None?
    ensures Earliest(s, now, families).None?
    decreases |families| - i
  {
    if i == |families| {
      assert families[..i] == families;
    } else {
      assert families[..i + 1][..i] == families[..i];
      CapacityEnds(s, now, families, i + 1);
    }
  }

  /* ---------- exactness ---------- */

  /** With a clock past the epoch, a family's cooldown is the least time from now on at which it is servable. */
  lemma FamilyExact(f: Limits, now: int)
    requires now >= 0
    ensures var cd := FamilyCooldown(f, now);
      && (cd == 0 <==> Servable(f, now))
      && (cd != 0 ==> cd > now && Servable(f, cd) && forall u | now <= u < cd :: !Servable(f, u))
  {
  }

  /** The later reset of the exhausted windows; only read when there is one. */
  function LastReset(f: Limits, now: int): int {
    if !Exhausted(f.primaryUtil, f.primaryReset, now) then f.secondaryReset
    else if !Exhausted(f.secondaryUtil, f.secondaryReset, now) then f.primaryReset
    else if f.primaryReset > f.secondaryReset then f.primaryReset else f.secondaryReset
  }

  /** Zero stands for "not exhausted", so with a clock before the epoch the test can miss: exactly if the family is
      exhausted and the later of its exhausted windows resets at the epoch, or before it when only the secondary
      window is exhausted. */
  lemma ZeroIsAmbiguousIff(f: Limits, now: int)
    ensures (FamilyCooldown(f, now) == 0 <==> Servable(f, now))
       <==> !(!Servable(f, now) && LastReset(f, now) <= 0
              && (Exhausted(f.primaryUtil, f.primaryReset, now) ==> LastReset(f, now) == 0))
  {
  }

  lemma {:induction false} EarliestMeans(s: CodexState, now: int, order: seq<string>)
    requires now >= 0
    ensures var e := Earliest(s, now, order);
      && (e.None? <==> exists p <- order :: Servable(Family(s, p), now))
      && (e.Some? && order != [] ==>
            && e.value > now && (exists p <- order :: e.value == FamilyCooldown(Family(s, p), now))
            && (forall p <- order :: e.value <= FamilyCooldown(Family(s, p), now)))
  {
    if order != [] {
      var init, last := order[..|order| - 1], order[|order| - 1];
      assert order == init + [last];
      EarliestMeans(s, now, init);
      FamilyExact(Family(s, last), now);
      var e := Earliest(s, now, order);
      if e.Some? {
        assert last in order;
        var p :| p in (if init != [] && e == Earliest(s, now, init) then init else [last])
                 && e.value == FamilyCooldown(Family(s, p), now);
        assert p in order;
      }
    }
  }

  /** The exhausted cooldown is exact. It is zero if and only if nothing is recorded or some recorded family is
      servable now; otherwise it is the least time from now on at which some recorded family is servable. */
  lemma CooldownExact(s: CodexState, now: int, order: seq<string>)
    requires now >= 0 && Lists(order, s)
    ensures var t := ExhaustedCooldown(Some(s), now, order);
      && (t == ZERO_TIME <==> AllFamilies(s) == {} || exists p <- AllFamilies(s) :: Servable(Family(s, p), now))
      && (t != ZERO_TIME ==>
            && t > now && (exists p <- AllFamilies(s) :: Servable(Family(s, p), t))
            && (forall u, p | now <= u < t && p in AllFamilies(s) :: !Servable(Family(s, p), u)))
  {
    EarliestMeans(s, now, order);
    if order == [] {
      assert AllFamilies(s) == {};
    } else {
      assert order[0] in AllFamilies(s);
      if ExhaustedCooldown(Some(s), now, order) != ZERO_TIME { FirstServable(s, now, order); }
    }
  }

  lemma FirstServable(s: CodexState, now: int, order: seq<string>)
    requires now >= 0 && Lists(order, s) && order != [] && Earliest(s, now, order).Some?
    ensures var t := Earliest(s, now, order).value;
      && (exists p <- AllFamilies(s) :: Servable(Family(s, p), t))
      && (forall u, p | now <= u < t && p in AllFamilies(s) :: !Servable(Family(s, p), u))
  {
    EarliestMeans(s, now, order);
    var t := Earliest(s, now, order).value;
    var first :| first in order && t == FamilyCooldown(Family(s, first), now);
    FamilyExact(Family(s, first), now);
    assert first in AllFamilies(s) && Servable(Family(s, first), t);
    forall u, p | now <= u < t && p in AllFamilies(s) ensures !Servable(Family(s, p), u) {
      FamilyExact(Family(s, p), now);
    }
  }

  /** While a bucket is cooled down for exhaustion, no model of a recorded family could be served anyway. */
  lemma CooldownAgreesWithEligibility(s: CodexState, now: int, order: seq<string>, familyOf: string -> string,
                                      model: string, u: int)
    requires now >= 0 && Lists(order, s) && familyOf(model) in AllFamilies(s)
    requires ExhaustedCooldown(Some(s), now, order) != ZERO_TIME && now <= u < ExhaustedCooldown(Some(s), now, order)
    ensures !CanServe(Some(s), familyOf, model, u)
  {
    CooldownExact(s, now, order);
  }

  /** While a bucket is cooled down for exhaustion, exactly these models are refused although they could be served: those
      of families nothing is recorded of, except a standard family whose exhausted legacy limits a family map hides. */
  lemma RefusedThoughServable(s: CodexState, now: int, order: seq<string>, familyOf: string -> string, model: string, u: int)
    requires now >= 0 && Lists(order, s)
    requires ExhaustedCooldown(Some(s), now, order) != ZERO_TIME && now <= u < ExhaustedCooldown(Some(s), now, order)
    ensures CanServe(Some(s), familyOf, model, u) <==>
      familyOf(model) !in AllFamilies(s) && !(familyOf(model) == STANDARD && LegacySet(s) && !Servable(Flat(s), u))
  {
    CooldownExact(s, now, order);
  }

  /** Who is served, on the recorded numbers: a model whose family's windows, or the flat ones for the standard family when
      nothing else is recorded of it, are neither of them used up to 99 percent and still to be reset. */
  lemma ServesExactly(s: CodexState, familyOf: string -> string, model: string, now: int)
    ensures var p := familyOf(model); var known := if s.families.Some? then s.families.value else map[];
      CanServe(Some(s), familyOf, model, now) <==>
        if p !in known && p != "" then true
        else
          var f := if p in known then known[p] else s.legacy;
          (f.primaryUtil < 0.99 || f.primaryReset <= now) && (f.secondaryUtil < 0.99 || f.secondaryReset <= now)
  {
  }

  /** What is recorded: the families of the map, or with none the standard family if any flat number is positive. */
  lemma RecordedExactly(s: CodexState)
    ensures var known := if s.families.Some? then s.families.value else map[]; var l := s.legacy;
      AllFamilies(s) ==
        if known != map[] then known.Keys
        else if l.primaryUtil <= 0.0 && l.secondaryUtil <= 0.0 && l.primaryReset <= 0 && l.secondaryReset <= 0 then {}
        else {""}
  {
  }

  /* ---------- migration of legacy state ---------- */

  function WithLegacy(s: CodexState): map<string, Limits> {
    var m := if s.families.Some? then s.families.value else map[];
    if LegacySet(s) && STANDARD !in m then m[STANDARD := Flat(s)] else m
  }

  /** The state after a response whose headers reported `updates`; an unreadable state starts empty. */
  function Captured(prev: CodexState, updates: map<string, Limits>): CodexState {
    CodexState(Some(WithLegacy(prev) + updates), if LegacySet(prev) then NO_LIMITS else prev.legacy)
  }

  function Parsed(prefixes: seq<string>, parse: string -> Limits): map<string, Limits> {
    map p | p in prefixes :: parse(p)
  }

  lemma ParsedExtends(base: map<string, Limits>, prefixes: seq<string>, p: string, parse: string -> Limits)
    ensures base + Parsed(prefixes + [p], parse) == (base + Parsed(prefixes, parse))[p := parse(p)]
  {
  }

  /** captureHeaders fills the family map in place, one reported prefix after another. */
  method CaptureHeaders(prev: CodexState, prefixes: seq<string>, parse: string -> Limits) returns (state: CodexState)
    ensures state == Captured(prev, Parsed(prefixes, parse))
  {
    var families: map<string, Limits> := if prev.families.Some? then prev.families.value else map[];
    var legacy := prev.legacy;
    if LegacySet(prev) {
      if STANDARD !in families { families := families[STANDARD := Flat(prev)]; }
      legacy := NO_LIMITS;
    }
    for i := 0 to |prefixes|
      invariant families == WithLegacy(prev) + Parsed(prefixes[..i], parse)
    {
      families := families[prefixes[i] := parse(prefixes[i])];
      assert prefixes[..i + 1] == prefixes[..i] + [prefixes[i]];
      ParsedExtends(WithLegacy(prev), prefixes[..i], prefixes[i], parse);
    }
    assert prefixes[..|prefixes|] == prefixes;
    state := CodexState(Some(families), legacy);
  }

  /** Migration keeps the view of every family that the response did not report, records what it did report, and
      records the standard family of a legacy state. The flat fields are spent. */
  lemma MigrationKeepsView(prev: CodexState, updates: map<string, Limits>, prefix: string)
    ensures var s := Captured(prev, updates);
      && Family(s, prefix) == (if prefix in updates then updates[prefix] else Family(prev, prefix))
      && AllFamilies(s) == AllFamilies(prev) + updates.Keys + (if LegacySet(prev) then {STANDARD} else {})
      && !LegacySet(s)
  {
    var s := Captured(prev, updates);
    assert s.families.value.Keys == WithLegacy(prev).Keys + updates.Keys;
    if s.families.value == map[] { assert WithLegacy(prev).Keys == {}; }
  }

  /** Reading the state again after a response that reported nothing records the same families unless a legacy
      standard family was hidden behind a family map. */
  lemma RecaptureIsStable(prev: CodexState)
    ensures AllFamilies(Captured(prev, map[])) == AllFamilies(prev)
       <==> !(LegacySet(prev) && prev.families.Some? && prev.families.value != map[] && STANDARD !in prev.families.value)
  {
    MigrationKeepsView(prev, map[], STANDARD);
  }
}
