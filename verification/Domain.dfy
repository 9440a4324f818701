/** Byte-string helpers of the Go standard library, on strings whose characters stand for bytes. */
module Text {

  predicate IsSpace(c: char) {
    c == ' ' || c == '\t' || c == '\n' || c == '\r' || c == (11 as char) || c == (12 as char)
  }

  function TrimLeft(s: string): string {
    if s != "" && IsSpace(s[0]) then TrimLeft(s[1..]) else s
  }

  function TrimRight(s: string): string {
    if s != "" && IsSpace(s[|s| - 1]) then TrimRight(s[..|s| - 1]) else s
  }

  function TrimSpace(s: string): string {
    TrimRight(TrimLeft(s))
  }

  lemma {:induction false} TrimLeftMeans(s: string) returns (i: nat)
    ensures i <= |s| && TrimLeft(s) == s[i..] && (forall j | 0 <= j < i :: IsSpace(s[j]))
    ensures TrimLeft(s) != "" ==> !IsSpace(TrimLeft(s)[0])
  {
    if s != "" && IsSpace(s[0]) {
      i := TrimLeftMeans(s[1..]);
      i := i + 1;
    } else {
      i := 0;
    }
  }

  lemma {:induction false} TrimRightMeans(s: string) returns (k: nat)
    ensures k <= |s| && TrimRight(s) == s[..k] && (forall j | k <= j < |s| :: IsSpace(s[j]))
    ensures TrimRight(s) != "" ==> !IsSpace(TrimRight(s)[|TrimRight(s)| - 1])
  {
    if s != "" && IsSpace(s[|s| - 1]) {
      k := TrimRightMeans(s[..|s| - 1]);
    } else {
      k := |s|;
    }
  }

  /** Trimming cuts the spaces off both ends, and leaves nothing exactly of a string of spaces. */
  lemma TrimSpaceMeans(s: string)
    ensures exists i: nat, k: nat | i <= k <= |s| ::
      TrimSpace(s) == s[i..k] && (forall j | 0 <= j < i || k <= j < |s| :: IsSpace(s[j]))
    ensures var t := TrimSpace(s); t != "" ==> !IsSpace(t[|t| - 1])
    ensures TrimSpace(s) == "" <==> forall c <- s :: IsSpace(c)
  {
    var i := TrimLeftMeans(s);
    var k := TrimRightMeans(s[i..]);
    assert TrimSpace(s) == s[i..i + k];
    forall j | 0 <= j < i || i + k <= j < |s| ensures IsSpace(s[j]) {
      if j >= i { assert s[j] == s[i..][j - i]; }
    }
    if TrimSpace(s) == "" {
      forall c | c in s ensures IsSpace(c) { var j :| 0 <= j < |s| && s[j] == c; }
    } else {
      assert TrimSpace(s)[k - 1] in s;
    }
  }

  function LowerChar(c: char): char {
    if 'A' <= c <= 'Z' then ((c as int) + 32) as char else c
  }

  function ToLower(s: string): string {
    seq(|s|, i requires 0 <= i < |s| => LowerChar(s[i]))
  }

  predicate HasPrefix(s: string, p: string) {
    |p| <= |s| && s[..|p|] == p
  }

  /** Byte-wise lexicographic order, the meaning of `<` on Go strings. */
  predicate Less(a: string, b: string) {
    b != "" && (a == "" || a[0] < b[0] || (a[0] == b[0] && Less(a[1..], b[1..])))
  }

  lemma {:induction false} LessIrreflexive(a: string)
    ensures !Less(a, a)
  {
    if a != "" { LessIrreflexive(a[1..]); }
  }

  /** The order is decided at the first place where the two differ; what ends first comes first. */
  lemma {:induction false} LessMeans(a: string, b: string)
    ensures Less(a, b) <==> exists n | 0 <= n <= |a| && n < |b| :: a[..n] == b[..n] && (n == |a| || a[n] < b[n])
  {
    if b != "" {
      if a == "" || a[0] != b[0] {
        assert a[..0] == b[..0];
        forall n | 0 < n <= |a| && n < |b| ensures a[..n] != b[..n] { assert a[..n][0] != b[..n][0]; }
      } else {
        LessMeans(a[1..], b[1..]);
        if Less(a, b) {
          var n :| 0 <= n <= |a| - 1 && n < |b| - 1 && a[1..][..n] == b[1..][..n] && (n == |a| - 1 || a[1..][n] < b[1..][n]);
          assert a[..n + 1] == [a[0]] + a[1..][..n] && b[..n + 1] == [b[0]] + b[1..][..n];
        }
        if n :| 0 <= n <= |a| && n < |b| && a[..n] == b[..n] && (n == |a| || a[n] < b[n]) {
          assert n > 0 by { assert a[0] == b[0]; }
          assert a[1..][..n - 1] == a[..n][1..] == b[..n][1..] == b[1..][..n - 1];
        }
      }
    }
  }

  lemma {:induction false} LessTransitive(a: string, b: string, c: string)
    requires Less(a, b) && Less(b, c)
    ensures Less(a, c)
  {
    if a != "" && a[0] == b[0] && b[0] == c[0] { LessTransitive(a[1..], b[1..], c[1..]); }
  }

  lemma {:induction false} LessTotal(a: string, b: string)
    requires a != b
    ensures Less(a, b) || Less(b, a)
  {
    if a != "" && b != "" && a[0] == b[0] {
      assert a == [a[0]] + a[1..] && b == [b[0]] + b[1..];
      LessTotal(a[1..], b[1..]);
    }
  }
}

/** Accounts, egress cells and quota buckets. Times are whole seconds of the Unix clock. */
module Domain {
  import opened Text

  datatype Option<+T> = None | Some(value: T)

  /** The zero `time.Time` of Go, 1 January of year 1, in Unix seconds. */
  const ZERO_TIME: int := -62135596800

  const CLAUDE := "claude"

  datatype Status = Active | Created | Error | Disabled | Blocked

  datatype Tokens = Tokens(access: string, refresh: string, expiresAt: int)

  /** The persisted columns of an account; `profile` stands for the columns the pool never reads. */
  datatype Account = Account(
    id: string, provider: string, subject: string, status: Status, errorMessage: string,
    priority: int, priorityMode: string, bucketKey: string, cellId: string,
    lastUsed: Option<int>, lastRefresh: Option<int>, tokens: Tokens, profile: string)

  datatype CellStatus = Unset | CellActive | CellDisabled | CellError

  /** `hasProxy` says that the proxy has a host and a positive port. */
  datatype Cell = Cell(status: CellStatus, cooldown: Option<int>, hasProxy: bool, lane: string)

  datatype Bucket = Bucket(cooldown: Option<int>, state: string)

  const EMPTY_STATE := "{}"
  const DEFAULT_BUCKET := Bucket(None, EMPTY_STATE)

  datatype Surface = NoSurface | Native | Compat | AllSurfaces

  function NormalizeSurface(value: string): Surface {
    var v := ToLower(TrimSpace(value));
    if v == "native" then Native
    else if v == "compat" then Compat
    else if v == "all" then AllSurfaces
    else NoSurface
  }

  datatype Assessment = Assessment(eligible: bool, priority: int, class_: string)

  /** What the pool asks of a provider driver; every member is an arbitrary function.
      `exhausted` returns ZERO_TIME when the quota is not exhausted. */
  datatype Driver = Driver(
    provider: string,
    bucketKey: (Account, string) -> string,
    assess: (string, string, int) -> Assessment,
    exhausted: (string, int) -> int)

  function DefaultBucketKey(a: Account): string {
    a.provider + ":" + (if a.subject != "" then a.subject else a.id)
  }

  /** The key under which an account's quota bucket is looked up. It is never empty. */
  function BucketKey(a: Account): (key: string)
    ensures key != ""
  {
    if a.bucketKey != "" then a.bucketKey else DefaultBucketKey(a)
  }

  /** What a caller of the pool is shown of an account: its own columns, with the bucket's quota. */
  datatype Projection = Projection(account: Account, cooldown: Option<int>, state: string)

  function Project(a: Account, buckets: map<string, Bucket>): Projection {
    var key := BucketKey(a);
    var shown := a.(bucketKey := key);
    if key in buckets then
      Projection(shown, buckets[key].cooldown,
                 if buckets[key].state != "" then buckets[key].state else EMPTY_STATE)
    else
      Projection(shown, None, EMPTY_STATE)
  }
}
