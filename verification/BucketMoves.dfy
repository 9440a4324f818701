/** Moving quota buckets from key to key, as SetDrivers does it account by account, with the keys given. */
module BucketMoves {
  import opened Domain
  import opened PoolState

  /** The loaded buckets, and for every account the key it has, the key it goes to with its quota in sight, and the
      key it goes to once its bucket is gone. */
  datatype Plan = Plan(start: map<string, Bucket>, key: map<string, string>, target: map<string, string>, orphan: map<string, string>)

  ghost predicate WellFormed(pl: Plan) {
    && pl.target.Keys == pl.key.Keys == pl.orphan.Keys
    && (forall id <- pl.key :: pl.key[id] in pl.start) && (forall k <- pl.start :: pl.start[k].state != "")
  }

  /** One account goes from one key to another: an existing bucket under the new key wins, a missing one is made. */
  function Shift(b: map<string, Bucket>, from: string, to: string): map<string, Bucket> {
    var m := if from == to || from !in b then b else if to in b then b - {from} else b[to := Normal(b[from])] - {from};
    if to in m then m else m[to := DEFAULT_BUCKET]
  }

  lemma ShiftEntries(b: map<string, Bucket>, from: string, to: string)
    ensures var s := Shift(b, from, to);
      && to in s && (from != to ==> from !in s)
      && (forall k | k != from && k != to :: (k in s <==> k in b) && (k in b ==> s[k] == b[k]))
      && (to in b ==> s[to] == b[to])
      && (to !in b ==> s[to] == if from in b then Normal(b[from]) else DEFAULT_BUCKET)
  {
  }

  /** Where account `id` may go from here: to its target while its bucket is as loaded, as an orphan once it is gone,
      and anywhere if the bucket under its key has changed. */
  ghost predicate Goes(pl: Plan, b: map<string, Bucket>, id: string, to: string)
    requires WellFormed(pl) && id in pl.key
  {
    && (pl.key[id] in b && b[pl.key[id]] == pl.start[pl.key[id]] ==> to == pl.target[id])
    && (pl.key[id] !in b ==> to == pl.orphan[id])
  }

  /** The accounts of `order` go to the keys of `tos`, one after the other. */
  ghost predicate Run(pl: Plan, b: map<string, Bucket>, order: seq<string>, tos: seq<string>)
    requires WellFormed(pl)
    decreases |order|
  {
    && |tos| == |order|
    && (order != [] ==>
          && order[0] in pl.key && Goes(pl, b, order[0], tos[0])
          && Run(pl, Shift(b, pl.key[order[0]], tos[0]), order[1..], tos[1..]))
  }

  ghost function After(pl: Plan, b: map<string, Bucket>, order: seq<string>, tos: seq<string>): map<string, Bucket>
    requires WellFormed(pl) && Run(pl, b, order, tos)
    decreases |order|
  {
    if order == [] then b else After(pl, Shift(b, pl.key[order[0]], tos[0]), order[1..], tos[1..])
  }

  /** The quota seen under a key. */
  function Sees(b: map<string, Bucket>, key: string): Bucket {
    if key in b then b[key] else DEFAULT_BUCKET
  }

  /** After the run everybody sees under his new key the quota he had. */
  ghost predicate Kept(pl: Plan, order: seq<string>, tos: seq<string>)
    requires WellFormed(pl) && Run(pl, pl.start, order, tos)
  {
    forall n | 0 <= n < |order| && order[n] in pl.key :: Sees(After(pl, pl.start, order, tos), tos[n]) == pl.start[pl.key[order[n]]]
  }

  /** Each id once. */
  ghost predicate Lists(order: seq<string>, ids: set<string>) {
    && (forall i | 0 <= i < |order| :: order[i] in ids)
    && (forall i, j | 0 <= i < j < |order| :: order[i] != order[j])
    && (forall id <- ids :: id in order)
  }

  /* ---------- the condition ---------- */

  /** Nobody moves onto a bucket that is already there. */
  predicate Vacant(pl: Plan, i: string)
    requires i in pl.key && i in pl.target
  {
    pl.target[i] == pl.key[i] || pl.target[i] !in pl.start
  }

  /** Two accounts do not get in each other's way: from different buckets they go to different keys; from one bucket
      either both stay, or both leave and whoever comes second goes where the first went. */
  predicate Compatible(pl: Plan, i: string, j: string)
    requires {i, j} <= pl.key.Keys && {i, j} <= pl.target.Keys && {i, j} <= pl.orphan.Keys
  {
    if pl.key[i] != pl.key[j] then pl.target[i] != pl.target[j]
    else
      || (pl.target[i] == pl.key[i] && pl.target[j] == pl.key[j])
      || (pl.target[i] != pl.key[i] && pl.target[j] != pl.key[j]
          && pl.orphan[j] == pl.target[i] && pl.orphan[i] == pl.target[j])
  }

  ghost predicate Clean(pl: Plan) {
    && WellFormed(pl)
    && (forall i <- pl.key :: Vacant(pl, i))
    && (forall i, j | i in pl.key && j in pl.key && i != j :: Compatible(pl, i, j))
  }

  /* ---------- the condition suffices ---------- */

  /** Account `m`, already visited, took the bucket `from` along. */
  predicate Mover(pl: Plan, done: set<string>, from: string, m: string) {
    m in done && m in pl.key && m in pl.target && pl.key[m] == from != pl.target[m]
  }

  /** The quota of `from` is under `to`, and so is everybody of that bucket visited so far. */
  ghost predicate With(pl: Plan, b: map<string, Bucket>, now: map<string, string>, done: set<string>, from: string, to: string) {
    && from in pl.start && to in b && b[to] == pl.start[from]
    && forall i | i in done && i in pl.key && i in now && pl.key[i] == from :: now[i] == to
  }

  /** The quota loaded under `from` is still there and nobody left, or somebody took it along and everybody of that
      bucket visited so far is with it. */
  ghost predicate Located(pl: Plan, b: map<string, Bucket>, now: map<string, string>, done: set<string>, from: string) {
    if from in b then
      && from in pl.start && b[from] == pl.start[from]
      && forall i | i in done && i in pl.key && i in pl.target && i in now && pl.key[i] == from :: now[i] == from == pl.target[i]
    else
      exists m :: Mover(pl, done, from, m) && With(pl, b, now, done, from, pl.target[m])
  }

  /** Some visited account's target is `k`. */
  ghost predicate Reached(pl: Plan, done: set<string>, k: string) {
    exists m :: m in done && m in pl.target && pl.target[m] == k
  }

  ghost predicate Midway(pl: Plan, b: map<string, Bucket>, now: map<string, string>, done: set<string>) {
    && (forall id <- pl.key :: id in now && Located(pl, b, now, done, pl.key[id]))
    && (forall k <- b :: k in pl.start || Reached(pl, done, k))
  }

  /** A target that is not the account's own key is free when the account moves, and it is the first of its bucket. */
  lemma TargetFree(pl: Plan, b: map<string, Bucket>, now: map<string, string>, done: set<string>, id: string)
    requires Clean(pl) && Midway(pl, b, now, done) && id in pl.key && id !in done
    requires pl.key[id] in b && pl.target[id] != pl.key[id]
    ensures pl.target[id] !in b && pl.target[id] !in pl.start
    ensures forall i | i in done && i in pl.key :: pl.key[i] != pl.key[id]
  {
    assert Vacant(pl, id) && Located(pl, b, now, done, pl.key[id]);
    forall i | i in done && i in pl.key ensures pl.key[i] != pl.key[id] && pl.target[i] != pl.target[id] {
      assert Compatible(pl, i, id);
    }
    assert !Reached(pl, done, pl.target[id]);
  }

  /** Whoever finds his bucket gone follows the one who took it. */
  lemma Follows(pl: Plan, b: map<string, Bucket>, now: map<string, string>, done: set<string>, id: string) returns (m: string)
    requires Clean(pl) && Midway(pl, b, now, done) && id in pl.key && id !in done && pl.key[id] !in b
    ensures Mover(pl, done, pl.key[id], m) && With(pl, b, now, done, pl.key[id], pl.target[m]) && pl.orphan[id] == pl.target[m]
  {
    assert Located(pl, b, now, done, pl.key[id]);
    m :| Mover(pl, done, pl.key[id], m) && With(pl, b, now, done, pl.key[id], pl.target[m]);
    assert Compatible(pl, m, id);
  }

  lemma ReachedMore(pl: Plan, done: set<string>, id: string, k: string)
    requires Reached(pl, done, k)
    ensures Reached(pl, done + {id}, k)
  {
    var m :| m in done && m in pl.target && pl.target[m] == k;
    assert m in done + {id};
  }

  lemma StayStep(pl: Plan, b: map<string, Bucket>, now: map<string, string>, done: set<string>, id: string)
    requires WellFormed(pl) && Midway(pl, b, now, done) && id in pl.key && id !in done
    requires pl.key[id] in b && pl.target[id] == pl.key[id]
    ensures Midway(pl, b, now[id := pl.key[id]], done + {id})
  {
    forall i | i in pl.key ensures Located(pl, b, now[id := pl.key[id]], done + {id}, pl.key[i]) {
      OtherKept(pl, b, now, done, id, pl.key[id], pl.key[i]);
    }
    forall k | k in b && k !in pl.start ensures Reached(pl, done + {id}, k) { ReachedMore(pl, done, id, k); }
  }

  /** A visit that changes no bucket keeps what is located, if the account is where its quota is. */
  lemma OtherKept(pl: Plan, b: map<string, Bucket>, now: map<string, string>, done: set<string>, id: string, to: string, g: string)
    requires WellFormed(pl) && id in pl.key && id !in done && Located(pl, b, now, done, g)
    requires g == pl.key[id] ==>
      if g in b then to == g == pl.target[id]
      else exists m :: Mover(pl, done, g, m) && With(pl, b, now, done, g, pl.target[m]) && to == pl.target[m]
    ensures Located(pl, b, now[id := to], done + {id}, g)
  {
    if g !in b {
      var m :| Mover(pl, done, g, m) && With(pl, b, now, done, g, pl.target[m]) && (g == pl.key[id] ==> to == pl.target[m]);
      assert Mover(pl, done + {id}, g, m) && With(pl, b, now[id := to], done + {id}, g, pl.target[m]);
    }
  }

  lemma FollowStep(pl: Plan, b: map<string, Bucket>, now: map<string, string>, done: set<string>, id: string)
    requires Clean(pl) && Midway(pl, b, now, done) && id in pl.key && id !in done && pl.key[id] !in b
    ensures Shift(b, pl.key[id], pl.orphan[id]) == b
    ensures Midway(pl, b, now[id := pl.orphan[id]], done + {id})
  {
    var m := Follows(pl, b, now, done, id);
    forall i | i in pl.key ensures Located(pl, b, now[id := pl.orphan[id]], done + {id}, pl.key[i]) {
      OtherKept(pl, b, now, done, id, pl.orphan[id], pl.key[i]);
    }
    forall k | k in b && k !in pl.start ensures Reached(pl, done + {id}, k) { ReachedMore(pl, done, id, k); }
  }

  lemma LeaveStep(pl: Plan, b: map<string, Bucket>, now: map<string, string>, done: set<string>, id: string)
    requires Clean(pl) && Midway(pl, b, now, done) && id in pl.key && id !in done
    requires pl.key[id] in b && pl.target[id] != pl.key[id]
    ensures Midway(pl, Shift(b, pl.key[id], pl.target[id]), now[id := pl.target[id]], done + {id})
  {
    var f, to := pl.key[id], pl.target[id];
    var s, then_ := Shift(b, f, to), now[id := to];
    TargetFree(pl, b, now, done, id);
    ShiftEntries(b, f, to);
    assert Located(pl, b, now, done, f);
    assert Mover(pl, done + {id}, f, id) && With(pl, s, then_, done + {id}, f, to);
    forall i | i in pl.key ensures Located(pl, s, then_, done + {id}, pl.key[i]) {
      if pl.key[i] != f {
        assert Located(pl, b, now, done, pl.key[i]);
        LeaveOthers(pl, b, now, done, id, pl.key[i]);
      }
    }
    forall k | k in s && k !in pl.start ensures Reached(pl, done + {id}, k) {
      if k == to { assert id in done + {id}; } else { ReachedMore(pl, done, id, k); }
    }
  }

  /** What else there is stays where it is when somebody moves to a free key. */
  lemma LeaveOthers(pl: Plan, b: map<string, Bucket>, now: map<string, string>, done: set<string>, id: string, g: string)
    requires WellFormed(pl) && (forall i <- pl.key :: Vacant(pl, i)) && id in pl.key && id !in done && g != pl.key[id]
    requires pl.target[id] !in b && pl.target[id] !in pl.start && Located(pl, b, now, done, g)
    ensures Located(pl, Shift(b, pl.key[id], pl.target[id]), now[id := pl.target[id]], done + {id}, g)
  {
    var f, to := pl.key[id], pl.target[id];
    ShiftEntries(b, f, to);
    if g !in b {
      var m :| Mover(pl, done, g, m) && With(pl, b, now, done, g, pl.target[m]);
      assert Vacant(pl, m);
      assert Mover(pl, done + {id}, g, m) && With(pl, Shift(b, f, to), now[id := to], done + {id}, g, pl.target[m]);
    }
  }

  lemma CleanStep(pl: Plan, b: map<string, Bucket>, now: map<string, string>, done: set<string>, id: string, to: string)
    requires Clean(pl) && Midway(pl, b, now, done) && id in pl.key && id !in done && Goes(pl, b, id, to)
    ensures Midway(pl, Shift(b, pl.key[id], to), now[id := to], done + {id})
  {
    assert Located(pl, b, now, done, pl.key[id]);
    if pl.key[id] !in b {
      FollowStep(pl, b, now, done, id);
    } else if to == pl.key[id] {
      StayStep(pl, b, now, done, id);
      assert Shift(b, to, to) == b;
    } else {
      LeaveStep(pl, b, now, done, id);
    }
  }

  /** At the end everybody's key leads to the quota he had. */
  lemma Arrived(pl: Plan, b: map<string, Bucket>, now: map<string, string>, done: set<string>, id: string)
    requires WellFormed(pl) && Midway(pl, b, now, done) && id in pl.key && id in done
    ensures now[id] in b && b[now[id]] == pl.start[pl.key[id]]
  {
    assert Located(pl, b, now, done, pl.key[id]);
  }

  /** The keys after a run, and who was visited. */
  function NowAfter(now: map<string, string>, order: seq<string>, tos: seq<string>): map<string, string>
    requires |tos| == |order|
    decreases |order|
  {
    if order == [] then now else NowAfter(now[order[0] := tos[0]], order[1..], tos[1..])
  }

  function DoneAfter(done: set<string>, order: seq<string>): set<string>
    decreases |order|
  {
    if order == [] then done else DoneAfter(done + {order[0]}, order[1..])
  }

  lemma {:induction false} CleanRun(pl: Plan, b: map<string, Bucket>, now: map<string, string>, done: set<string>,
                                    order: seq<string>, tos: seq<string>)
    requires Clean(pl) && Midway(pl, b, now, done) && Run(pl, b, order, tos)
    requires forall i, j | 0 <= i < j < |order| :: order[i] != order[j]
    requires forall i | 0 <= i < |order| :: order[i] !in done
    ensures Midway(pl, After(pl, b, order, tos), NowAfter(now, order, tos), DoneAfter(done, order))
    decreases |order|
  {
    if order != [] {
      CleanStep(pl, b, now, done, order[0], tos[0]);
      CleanRun(pl, Shift(b, pl.key[order[0]], tos[0]), now[order[0] := tos[0]], done + {order[0]}, order[1..], tos[1..]);
    }
  }

  lemma {:induction false} AfterEntries(now: map<string, string>, done: set<string>, order: seq<string>, tos: seq<string>)
    requires |tos| == |order| && forall i, j | 0 <= i < j < |order| :: order[i] != order[j]
    ensures done <= DoneAfter(done, order) && now.Keys <= NowAfter(now, order, tos).Keys
    ensures forall n | 0 <= n < |order| ::
      order[n] in DoneAfter(done, order) && order[n] in NowAfter(now, order, tos) && NowAfter(now, order, tos)[order[n]] == tos[n]
    ensures forall id <- now :: id !in order ==> NowAfter(now, order, tos)[id] == now[id]
    decreases |order|
  {
    if order != [] {
      AfterEntries(now[order[0] := tos[0]], done + {order[0]}, order[1..], tos[1..]);
      forall n | 0 <= n < |order|
        ensures order[n] in DoneAfter(done, order) && order[n] in NowAfter(now, order, tos) && NowAfter(now, order, tos)[order[n]] == tos[n]
      {
        if n > 0 { assert order[n] == order[1..][n - 1] && tos[n] == tos[1..][n - 1]; }
      }
    }
  }

  lemma {:induction false} RunMembers(pl: Plan, b: map<string, Bucket>, order: seq<string>, tos: seq<string>)
    requires WellFormed(pl) && Run(pl, b, order, tos)
    ensures |tos| == |order| && forall n | 0 <= n < |order| :: order[n] in pl.key
    decreases |order|
  {
    if order != [] {
      RunMembers(pl, Shift(b, pl.key[order[0]], tos[0]), order[1..], tos[1..]);
      forall n | 0 <= n < |order| ensures order[n] in pl.key {
        if n > 0 { assert order[n] == order[1..][n - 1]; }
      }
    }
  }

  /** Under the condition every run keeps everybody's quota. */
  lemma CleanKeeps(pl: Plan, order: seq<string>, tos: seq<string>)
    requires Clean(pl) && Run(pl, pl.start, order, tos)
    requires forall i, j | 0 <= i < j < |order| :: order[i] != order[j]
    ensures Kept(pl, order, tos)
  {
    RunMembers(pl, pl.start, order, tos);
    assert Midway(pl, pl.start, pl.key, {}) by {
      forall id | id in pl.key ensures Located(pl, pl.start, pl.key, {}, pl.key[id]) {
      }
    }
    CleanRun(pl, pl.start, pl.key, {}, order, tos);
    AfterEntries(pl.key, {}, order, tos);
    var end, all := NowAfter(pl.key, order, tos), DoneAfter({}, order);
    forall n | 0 <= n < |order| ensures Sees(After(pl, pl.start, order, tos), tos[n]) == pl.start[pl.key[order[n]]] {
      Arrived(pl, After(pl, pl.start, order, tos), end, all, order[n]);
    }
  }

  /* ---------- and it is necessary ---------- */

  /** The loaded buckets hold pairwise different quotas, and none of them the default. */
  ghost predicate Distinct(pl: Plan) {
    && (forall k, m | k in pl.start && m in pl.start && k != m :: pl.start[k] != pl.start[m])
    && (forall k <- pl.start :: pl.start[k] != DEFAULT_BUCKET)
  }

  /** Quota `v` is under no key an unvisited account could have, and not under `key`. */
  ghost predicate Lost(pl: Plan, b: map<string, Bucket>, v: Bucket, key: string) {
    && v != DEFAULT_BUCKET && (forall k <- b :: b[k].state != "")
    && forall k <- b :: b[k] == v ==> k !in pl.start && k != key
  }

  /** Lost is lost, wherever the others go. */
  lemma LostStays(pl: Plan, b: map<string, Bucket>, v: Bucket, key: string, from: string, to: string)
    requires Lost(pl, b, v, key) && from in pl.start
    ensures Lost(pl, Shift(b, from, to), v, key)
  {
    ShiftEntries(b, from, to);
  }

  /** An account that moves onto an existing bucket loses its quota. */
  lemma OntoExisting(pl: Plan, i: string)
    requires WellFormed(pl) && Distinct(pl) && i in pl.key && !Vacant(pl, i)
    ensures Lost(pl, Shift(pl.start, pl.key[i], pl.target[i]), pl.start[pl.key[i]], pl.target[i])
  {
    ShiftEntries(pl.start, pl.key[i], pl.target[i]);
  }

  /** The second of two accounts that move from different buckets to one key loses its quota. */
  lemma SameTarget(pl: Plan, i: string, j: string)
    requires WellFormed(pl) && Distinct(pl) && i in pl.key && j in pl.key && Vacant(pl, i) && Vacant(pl, j)
    requires pl.key[i] != pl.key[j] && pl.target[i] == pl.target[j]
    ensures var s := Shift(pl.start, pl.key[i], pl.target[i]);
      && pl.key[j] in s && s[pl.key[j]] == pl.start[pl.key[j]]
      && Lost(pl, Shift(s, pl.key[j], pl.target[j]), pl.start[pl.key[j]], pl.target[j])
  {
    var s := Shift(pl.start, pl.key[i], pl.target[i]);
    ShiftEntries(pl.start, pl.key[i], pl.target[i]);
    ShiftEntries(s, pl.key[j], pl.target[j]);
  }

  /** If one account stays in a bucket that another takes along, the one who stays loses its quota. */
  lemma LeftBehind(pl: Plan, i: string, j: string)
    requires WellFormed(pl) && Distinct(pl) && i in pl.key && j in pl.key && Vacant(pl, j)
    requires pl.key[i] == pl.key[j] == pl.target[i] != pl.target[j]
    ensures Shift(pl.start, pl.key[i], pl.target[i]) == pl.start
    ensures Lost(pl, Shift(pl.start, pl.key[j], pl.target[j]), pl.start[pl.key[i]], pl.target[i])
  {
    ShiftEntries(pl.start, pl.key[j], pl.target[j]);
  }

  /** The second of two accounts that leave a bucket loses its quota unless it follows the first. */
  lemma NotFollowed(pl: Plan, i: string, j: string)
    requires WellFormed(pl) && Distinct(pl) && i in pl.key && j in pl.key && Vacant(pl, i)
    requires pl.key[i] == pl.key[j] && pl.target[i] != pl.key[i] && pl.orphan[j] != pl.target[i]
    ensures var s := Shift(pl.start, pl.key[i], pl.target[i]);
      pl.key[j] !in s && Lost(pl, Shift(s, pl.key[j], pl.orphan[j]), pl.start[pl.key[j]], pl.orphan[j])
  {
    var s := Shift(pl.start, pl.key[i], pl.target[i]);
    ShiftEntries(pl.start, pl.key[i], pl.target[i]);
    ShiftEntries(s, pl.key[j], pl.orphan[j]);
  }

  lemma {:induction false} LostRun(pl: Plan, b: map<string, Bucket>, order: seq<string>, tos: seq<string>, v: Bucket, key: string)
    requires WellFormed(pl) && Run(pl, b, order, tos) && Lost(pl, b, v, key)
    ensures Lost(pl, After(pl, b, order, tos), v, key)
    decreases |order|
  {
    if order != [] {
      LostStays(pl, b, v, key, pl.key[order[0]], tos[0]);
      LostRun(pl, Shift(b, pl.key[order[0]], tos[0]), order[1..], tos[1..], v, key);
    }
  }

  /** What a first visit, or a second one, costs. */
  ghost predicate Clashes(pl: Plan, i: string, j: string, loser: string)
    requires WellFormed(pl) && i in pl.key && j in pl.key
  {
    if pl.key[i] != pl.key[j] then pl.target[i] == pl.target[j] && loser == j
    else if pl.target[i] == pl.key[i] then pl.target[j] != pl.key[j] && loser == i
    else pl.orphan[j] != pl.target[i] && loser == j
  }

  lemma ClashLoses(pl: Plan, i: string, j: string, loser: string, to: string)
    requires WellFormed(pl) && Distinct(pl) && i in pl.key && j in pl.key && Vacant(pl, i) && Vacant(pl, j)
    requires Clashes(pl, i, j, loser) && Goes(pl, Shift(pl.start, pl.key[i], pl.target[i]), j, to)
    ensures Lost(pl, Shift(Shift(pl.start, pl.key[i], pl.target[i]), pl.key[j], to), pl.start[pl.key[loser]],
                 if loser == j then to else pl.target[i])
  {
    if pl.key[i] != pl.key[j] {
      SameTarget(pl, i, j);
    } else if pl.target[i] == pl.key[i] {
      LeftBehind(pl, i, j);
    } else {
      NotFollowed(pl, i, j);
    }
  }

  /** Whoever moves onto a loaded bucket first loses his quota. */
  lemma FirstLoses(pl: Plan, i: string, order: seq<string>, tos: seq<string>)
    requires WellFormed(pl) && Distinct(pl) && Run(pl, pl.start, order, tos) && order != [] && order[0] == i && !Vacant(pl, i)
    ensures !Kept(pl, order, tos)
  {
    RunMembers(pl, pl.start, order, tos);
    OntoExisting(pl, i);
    LostRun(pl, Shift(pl.start, pl.key[i], tos[0]), order[1..], tos[1..], pl.start[pl.key[i]], tos[0]);
    assert Sees(After(pl, pl.start, order, tos), tos[0]) != pl.start[pl.key[i]];
  }

  /** Of two that clash and come first, one loses his quota. */
  lemma SecondLoses(pl: Plan, i: string, j: string, loser: string, order: seq<string>, tos: seq<string>)
    requires WellFormed(pl) && Distinct(pl) && Run(pl, pl.start, order, tos) && |order| >= 2 && order[0] == i && order[1] == j
    requires i in pl.key && j in pl.key && Vacant(pl, i) && Vacant(pl, j) && i != j && Clashes(pl, i, j, loser)
    ensures !Kept(pl, order, tos)
  {
    RunMembers(pl, pl.start, order, tos);
    var s := Shift(pl.start, pl.key[i], tos[0]);
    assert order[1..][0] == j && tos[1..][0] == tos[1];
    ClashLoses(pl, i, j, loser, tos[1]);
    var n := if loser == j then 1 else 0;
    LostRun(pl, Shift(s, pl.key[j], tos[1]), order[1..][1..], tos[1..][1..], pl.start[pl.key[loser]], tos[n]);
    assert Sees(After(pl, pl.start, order, tos), tos[n]) != pl.start[pl.key[loser]];
  }

  lemma {:induction false} Listing(ids: set<string>) returns (order: seq<string>)
    ensures Lists(order, ids)
    decreases ids
  {
    if ids == {} {
      order := [];
    } else {
      var id :| id in ids;
      var rest := Listing(ids - {id});
      order := [id] + rest;
    }
  }

  lemma ListingFrom(i: string, ids: set<string>) returns (order: seq<string>)
    requires i in ids
    ensures Lists(order, ids) && order != [] && order[0] == i
  {
    var rest := Listing(ids - {i});
    order := [i] + rest;
  }

  lemma ListingFromTwo(i: string, j: string, ids: set<string>) returns (order: seq<string>)
    requires i in ids && j in ids && i != j
    ensures Lists(order, ids) && |order| >= 2 && order[0] == i && order[1] == j
  {
    var rest := ListingFrom(j, ids - {i});
    order := [i] + rest;
  }

  /** Without the condition some order loses a quota. */
  lemma UncleanLoses(pl: Plan) returns (order: seq<string>)
    requires WellFormed(pl) && Distinct(pl) && !Clean(pl)
    ensures Lists(order, pl.key.Keys)
    ensures forall tos | Run(pl, pl.start, order, tos) :: !Kept(pl, order, tos)
  {
    if i :| i in pl.key && !Vacant(pl, i) {
      order := ListingFrom(i, pl.key.Keys);
      forall tos | Run(pl, pl.start, order, tos)
        ensures !Kept(pl, order, tos)
      {
        FirstLoses(pl, i, order, tos);
      }
    } else {
      var i, j, loser := ClashExists(pl);
      order := ListingFromTwo(i, j, pl.key.Keys);
      forall tos | Run(pl, pl.start, order, tos)
        ensures !Kept(pl, order, tos)
      {
        SecondLoses(pl, i, j, loser, order, tos);
      }
    }
  }

  lemma ClashExists(pl: Plan) returns (i: string, j: string, loser: string)
    requires WellFormed(pl) && !Clean(pl) && forall k <- pl.key :: Vacant(pl, k)
    ensures i in pl.key && j in pl.key && i != j && Clashes(pl, i, j, loser)
  {
    i, j :| i in pl.key && j in pl.key && i != j && !Compatible(pl, i, j);
    if pl.key[i] == pl.key[j] && pl.target[i] == pl.key[i] {
      loser := i;
    } else if Clashes(pl, i, j, j) {
      loser := j;
    } else {
      i, j := j, i;
      loser := if pl.target[i] == pl.key[i] then i else j;
    }
  }
}
