/** The name under which a conversation's binding is stored: a hash of length-prefixed parts. */
module AffinityNamespace {
  import opened Domain
  import opened Text

  const VERSION := "llm-broker-route-affinity-v1"

  function Digit(d: nat): char
    requires d < 10
  {
    ('0' as int + d) as char
  }

  predicate IsDigit(c: char) {
    '0' <= c <= '9'
  }

  /** The decimal form without leading zeros. */
  function Itoa(n: nat): string {
    if n < 10 then [Digit(n)] else Itoa(n / 10) + [Digit(n % 10)]
  }

  function Encode(parts: seq<string>): string {
    if parts == [] then "" else Itoa(|parts[0]|) + ":" + parts[0] + Encode(parts[1..])
  }

  function SurfaceName(s: Surface): string {
    match s
    case NoSurface => ""
    case Native => "native"
    case Compat => "compat"
    case AllSurfaces => "all"
  }

  datatype RouteAffinity = RouteAffinity(kind: string, rawKey: string)

  function Parts(user: string, provider: string, surface: string, a: RouteAffinity): seq<string> {
    [VERSION, user, provider, SurfaceName(NormalizeSurface(surface)), a.kind, TrimSpace(a.rawKey)]
  }

  /** The hash is an arbitrary function; an empty raw key gives the empty name, which means no affinity. */
  function RouteAffinityKey(hash: string -> string, user: string, provider: string, surface: string,
                            a: RouteAffinity): string
  {
    if TrimSpace(a.rawKey) == "" then "" else hash(Encode(Parts(user, provider, surface, a)))
  }

  /** routeAffinityKey builds the encoding part by part. */
  method BuildRouteAffinityKey(hash: string -> string, user: string, provider: string, surface: string,
                               a: RouteAffinity)
    returns (key: string)
    ensures key == RouteAffinityKey(hash, user, provider, surface, a)
  {
    var rawKey := TrimSpace(a.rawKey);
    if rawKey == "" { return ""; }
    var parts := [VERSION, user, provider, SurfaceName(NormalizeSurface(surface)), a.kind, rawKey];
    var namespace := "";
    for i := 0 to |parts|
      invariant namespace == Encode(parts[..i])
    {
      assert parts[..i + 1] == parts[..i] + [parts[i]];
      EncodeAppend(parts[..i], parts[i]);
      namespace := namespace + Itoa(|parts[i]|);
      namespace := namespace + ":";
      namespace := namespace + parts[i];
    }
    assert parts[..|parts|] == parts;
    key := hash(namespace);
  }

  lemma {:induction false} EncodeAppend(parts: seq<string>, p: string)
    ensures Encode(parts + [p]) == Encode(parts) + Itoa(|p|) + ":" + p
  {
    if parts == [] {
      assert [] + [p] == [p] && [p][1..] == [];
    } else {
      assert (parts + [p])[1..] == parts[1..] + [p];
      EncodeAppend(parts[1..], p);
    }
  }

  /* ---------- the decoder ---------- */

  /** How many digits `s` starts with. */
  function DigitRun(s: string): (n: nat)
    ensures n <= |s| && (n < |s| ==> !IsDigit(s[n])) && forall i | 0 <= i < n :: IsDigit(s[i])
  {
    if s == "" || !IsDigit(s[0]) then 0 else 1 + DigitRun(s[1..])
  }

  function Atoi(s: string): nat
    requires forall c <- s :: IsDigit(c)
  {
    if s == "" then 0
    else
      var last := s[|s| - 1];
      assert last in s && IsDigit(last);
      10 * Atoi(s[..|s| - 1]) + (last as int - '0' as int)
  }

  function Decode(s: string): Option<seq<string>>
    decreases |s|
  {
    if s == "" then Some([])
    else
      var n := DigitRun(s);
      if n == |s| || s[n] != ':' then None
      else
        var len, body := Atoi(s[..n]), s[n + 1..];
        if len > |body| then None
        else
          match Decode(body[len..])
          case None => None
          case Some(parts) => Some([body[..len]] + parts)
  }

  lemma {:induction false} ItoaDigits(n: nat)
    ensures Itoa(n) != "" && (forall c <- Itoa(n) :: IsDigit(c)) && Atoi(Itoa(n)) == n
  {
    if n >= 10 {
      ItoaDigits(n / 10);
      assert Itoa(n)[..|Itoa(n)| - 1] == Itoa(n / 10);
    }
  }

  lemma {:induction false} DigitRunIs(digits: string, rest: string)
    requires (forall c <- digits :: IsDigit(c)) && (rest == "" || !IsDigit(rest[0]))
    ensures DigitRun(digits + rest) == |digits|
  {
    if digits == "" {
      assert digits + rest == rest;
    } else {
      assert (digits + rest)[1..] == digits[1..] + rest;
      DigitRunIs(digits[1..], rest);
    }
  }

  /** Decoding inverts encoding, whatever the parts contain. */
  lemma {:induction false} DecodeEncode(parts: seq<string>)
    ensures Decode(Encode(parts)) == Some(parts)
    decreases |parts|
  {
    if parts != [] {
      DecodeHead(parts[0], Encode(parts[1..]));
      DecodeEncode(parts[1..]);
      assert parts == [parts[0]] + parts[1..];
    }
  }

  lemma DecodeHead(p: string, tail: string)
    ensures Decode(Itoa(|p|) + ":" + p + tail) == if Decode(tail).None? then None else Some([p] + Decode(tail).value)
  {
    var digits, body := Itoa(|p|), p + tail;
    var s := digits + ":" + p + tail;
    ItoaDigits(|p|);
    assert s == digits + (":" + body);
    DigitRunIs(digits, ":" + body);
    assert s[..|digits|] == digits && s[|digits|] == ':' && s[|digits| + 1..] == body;
    assert body[..|p|] == p && body[|p|..] == tail;
  }

  lemma SurfaceNameInjective(s: Surface, t: Surface)
    requires SurfaceName(s) == SurfaceName(t)
    ensures s == t
  {
    assert |SurfaceName(NoSurface)| == 0 && |SurfaceName(AllSurfaces)| == 3;
    assert SurfaceName(Native)[0] == 'n' && SurfaceName(Compat)[0] == 'c';
  }

  /** One part of the encoding. */
  function Field(p: string): string {
    Itoa(|p|) + ":" + p
  }

  /** The name, spelled out: the hash of the version and the five parts, in this order. */
  lemma NameSpelled(hash: string -> string, user: string, provider: string, surface: string, a: RouteAffinity)
    requires TrimSpace(a.rawKey) != ""
    ensures RouteAffinityKey(hash, user, provider, surface, a) == hash(
      Field("llm-broker-route-affinity-v1") + Field(user) + Field(provider) + Field(SurfaceName(NormalizeSurface(surface)))
      + Field(a.kind) + Field(TrimSpace(a.rawKey)))
  {
    EncodeSix(VERSION, user, provider, SurfaceName(NormalizeSurface(surface)), a.kind, TrimSpace(a.rawKey));
  }

  lemma EncodeSix(p: string, q: string, r: string, s: string, t: string, u: string)
    ensures Encode([p, q, r, s, t, u]) == Field(p) + Field(q) + Field(r) + Field(s) + Field(t) + Field(u)
  {
    EncodeOne(p);
    EncodeNext([p], q);
    EncodeNext([p, q], r);
    EncodeNext([p, q, r], s);
    EncodeNext([p, q, r, s], t);
    EncodeNext([p, q, r, s, t], u);
    assert [p] + [q] == [p, q] && [p, q] + [r] == [p, q, r] && [p, q, r] + [s] == [p, q, r, s];
    assert [p, q, r, s] + [t] == [p, q, r, s, t] && [p, q, r, s, t] + [u] == [p, q, r, s, t, u];
  }

  lemma EncodeOne(p: string)
    ensures Encode([p]) == Field(p)
  {
    EncodeAppend([], p);
    assert [] + [p] == [p];
  }

  lemma EncodeNext(parts: seq<string>, p: string)
    ensures Encode(parts + [p]) == Encode(parts) + Field(p)
  {
    EncodeAppend(parts, p);
    assert Encode(parts) + Itoa(|p|) + ":" + p == Encode(parts) + Field(p);
  }

  /** A surface is named in any case and between any spaces; everything else names none. */
  lemma SurfaceNamed(value: string, s: Surface)
    requires s != NoSurface
    ensures NormalizeSurface(value) == s <==> ToLower(TrimSpace(value)) == SurfaceName(s)
  {
    assert |SurfaceName(AllSurfaces)| == 3 && SurfaceName(Native)[0] == 'n' && SurfaceName(Compat)[0] == 'c';
  }

  /** There is no name exactly if the raw key is blank, provided the hash does not come out empty. */
  lemma NamelessIffBlank(hash: string -> string, user: string, provider: string, surface: string, a: RouteAffinity)
    ensures (forall c <- a.rawKey :: IsSpace(c)) ==> RouteAffinityKey(hash, user, provider, surface, a) == ""
    ensures hash(Encode(Parts(user, provider, surface, a))) != "" ==>
      (RouteAffinityKey(hash, user, provider, surface, a) == "" <==> forall c <- a.rawKey :: IsSpace(c))
  {
    TrimSpaceMeans(a.rawKey);
  }

  /** Two conversations share a name only if they agree in user, provider, normalised surface, kind and trimmed raw
      key, provided the hash tells their two encodings apart; and if they agree they share it. */
  lemma NamespaceInjective(hash: string -> string, u: string, p: string, s: string, a: RouteAffinity,
                           u': string, p': string, s': string, a': RouteAffinity)
    requires TrimSpace(a.rawKey) != "" && TrimSpace(a'.rawKey) != ""
    requires var x, y := Encode(Parts(u, p, s, a)), Encode(Parts(u', p', s', a')); hash(x) == hash(y) ==> x == y
    ensures RouteAffinityKey(hash, u, p, s, a) == RouteAffinityKey(hash, u', p', s', a')
       <==> (u == u' && p == p' && NormalizeSurface(s) == NormalizeSurface(s') && a.kind == a'.kind
             && TrimSpace(a.rawKey) == TrimSpace(a'.rawKey))
  {
    var x, y := Parts(u, p, s, a), Parts(u', p', s', a');
    if Encode(x) == Encode(y) {
      DecodeEncode(x);
      DecodeEncode(y);
      assert x == y;
      assert x[1] == y[1] && x[2] == y[2] && x[3] == y[3] && x[4] == y[4] && x[5] == y[5];
      SurfaceNameInjective(NormalizeSurface(s), NormalizeSurface(s'));
    }
  }
}
