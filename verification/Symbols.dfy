/** Choosing the symbols of a tick: watchlist first, a rotating liquid pool, then a rotating rest. */
module Symbols {
  import opened Prelude

  type Code = string

  // ---------------------------------------------------------------- normalisation of codes

  predicate IsSpace(c: char) {
    c == ' ' || '\t' <= c <= '\r' || '\U{1C}' <= c <= '\U{1F}'
  }

  predicate IsDigit(c: char) {
    '0' <= c <= '9'
  }

  predicate IsCodeChar(c: char) {
    IsDigit(c) || 'A' <= c <= 'Z'
  }

  function Upper(c: char): char {
    if 'a' <= c <= 'z' then c - 'a' + 'A' else c
  }

  function StripLeft(s: string): string {
    if s != [] && IsSpace(s[0]) then StripLeft(s[1..]) else s
  }

  function StripRight(s: string): string {
    if s != [] && IsSpace(s[|s| - 1]) then StripRight(s[..|s| - 1]) else s
  }

  function UpperAll(s: string): (r: string)
    ensures |r| == |s| && forall i :: 0 <= i < |s| ==> r[i] == Upper(s[i])
  {
    if s == [] then [] else [Upper(s[0])] + UpperAll(s[1..])
  }

  function ZeroFill(s: string): string
    decreases 6 - |s|
  {
    if |s| >= 6 then s else ZeroFill(['0'] + s)
  }

  predicate IsCode(s: string) {
    |s| == 6 && forall i :: 0 <= i < 6 ==> IsCodeChar(s[i])
  }

  /** Trimmed, upper-cased, digits padded to six; anything that is not six of [0-9A-Z] is dropped. */
  function Normalize(raw: string): (r: Option<Code>)
    ensures r.Some? ==> IsCode(r.value)
  {
    var s := UpperAll(StripRight(StripLeft(raw)));
    if s == [] then None
    else
      var t := if forall i :: 0 <= i < |s| ==> IsDigit(s[i]) then ZeroFill(s) else s;
      if IsCode(t) then Some(t) else None
  }

  /** Normalising twice changes nothing: a normalised code is its own normal form. */
  lemma NormalizeFixesCodes(s: string)
    requires IsCode(s)
    ensures Normalize(s) == Some(s)
  {
    assert StripLeft(s) == s && StripRight(s) == s;
    assert UpperAll(s) == s;
  }

  predicate AllSpace(s: string) {
    forall i :: 0 <= i < |s| ==> IsSpace(s[i])
  }

  predicate AllDigits(s: string) {
    forall i :: 0 <= i < |s| ==> IsDigit(s[i])
  }

  /** The core of a raw entry, between its leading and trailing white space. */
  ghost predicate Surrounded(raw: string, left: string, core: string, right: string) {
    raw == left + core + right && AllSpace(left) && AllSpace(right)
    && core != [] && !IsSpace(core[0]) && !IsSpace(core[|core| - 1])
  }

  function Zeros(n: nat): string {
    seq(n, _ => '0')
  }

  /** What the format promises: up to six digits stand for themselves padded with zeros, other six for their upper case. */
  ghost predicate FormOf(core: string, code: Code) {
    if AllDigits(core) then |core| <= 6 && code == Zeros(6 - |core|) + core
    else IsCode(code) && |core| == 6 && forall i :: 0 <= i < 6 ==> code[i] == Upper(core[i])
  }

  lemma {:induction false} StripLeftDrops(left: string, rest: string)
    requires AllSpace(left) && (rest != [] ==> !IsSpace(rest[0]))
    ensures StripLeft(left + rest) == rest
  {
    if left == [] {
      assert left + rest == rest;
    } else {
      assert (left + rest)[1..] == left[1..] + rest;
      StripLeftDrops(left[1..], rest);
    }
  }

  lemma {:induction false} StripRightDrops(rest: string, right: string)
    requires AllSpace(right) && (rest != [] ==> !IsSpace(rest[|rest| - 1]))
    ensures StripRight(rest + right) == rest
  {
    if right == [] {
      assert rest + right == rest;
    } else {
      var n := |right| - 1;
      assert (rest + right)[..|rest| + n] == rest + right[..n];
      StripRightDrops(rest, right[..n]);
    }
  }

  lemma StripFinds(raw: string, left: string, core: string, right: string)
    requires Surrounded(raw, left, core, right)
    ensures StripRight(StripLeft(raw)) == core
  {
    assert raw == left + (core + right);
    StripLeftDrops(left, core + right);
    StripRightDrops(core, right);
  }

  /** Every entry is blank or has a core. */
  lemma {:induction false} Split(raw: string) returns (left: string, core: string, right: string)
    ensures if AllSpace(raw) then core == [] else Surrounded(raw, left, core, right)
  {
    left, core, right := [], [], [];
    if !AllSpace(raw) {
      if IsSpace(raw[0]) {
        left, core, right := Split(raw[1..]);
        left := [raw[0]] + left;
        assert raw == [raw[0]] + raw[1..];
      } else if IsSpace(raw[|raw| - 1]) {
        var n := |raw| - 1;
        left, core, right := Split(raw[..n]);
        right := right + [raw[n]];
        assert raw == raw[..n] + [raw[n]];
      } else {
        core := raw;
        assert raw == left + core + right;
      }
    }
  }

  lemma {:induction false} ZeroFillPads(s: string)
    requires |s| <= 6
    ensures ZeroFill(s) == Zeros(6 - |s|) + s
    decreases 6 - |s|
  {
    if |s| < 6 {
      ZeroFillPads(['0'] + s);
      assert Zeros(6 - |s|) == Zeros(5 - |s|) + ['0'];
    }
  }

  lemma NormalizeOfCore(core: string, code: Code)
    requires core != []
    ensures var s := UpperAll(core); var t := if AllDigits(s) then ZeroFill(s) else s;
      (IsCode(t) && t == code) <==> FormOf(core, code)
  {
    var s := UpperAll(core);
    assert AllDigits(s) <==> AllDigits(core) by {
      assert forall i :: 0 <= i < |s| ==> (IsDigit(s[i]) <==> IsDigit(core[i]));
    }
    if AllDigits(core) {
      assert s == core;
      if |core| <= 6 {
        ZeroFillPads(core);
      }
    }
  }

  lemma NormalizeOfStripped(raw: string, core: string)
    requires core == StripRight(StripLeft(raw))
    ensures Normalize(raw) == var s := UpperAll(core);
      if s == [] then None
      else var t := if AllDigits(s) then ZeroFill(s) else s; if IsCode(t) then Some(t) else None
  {
    hide StripLeft, StripRight, ZeroFill, IsCode;
  }

  /** Exactly which entries are accepted, and as what: those whose core has the promised form. */
  lemma {:induction false} NormalizeAcceptsExactly(raw: string, code: Code)
    ensures Normalize(raw) == Some(code)
      <==> exists left, core, right :: Surrounded(raw, left, core, right) && FormOf(core, code)
  {
    hide Normalize, FormOf, Surrounded, StripLeft, StripRight, ZeroFill, IsCode;
    var left, core, right := Split(raw);
    if AllSpace(raw) {
      BlankIsDropped(raw);
      forall l, c, r | Surrounded(raw, l, c, r) ensures false {
        NotBlank(raw, l, c, r);
      }
    } else {
      StripFinds(raw, left, core, right);
      NormalizeOfStripped(raw, core);
      CoreNonempty(raw, left, core, right);
      NormalizeOfCore(core, code);
      forall l, c, r | Surrounded(raw, l, c, r) ensures c == core {
        StripFinds(raw, l, c, r);
      }
    }
  }

  lemma CoreNonempty(raw: string, left: string, core: string, right: string)
    requires Surrounded(raw, left, core, right)
    ensures core != []
  {
  }

  lemma BlankIsDropped(raw: string)
    requires AllSpace(raw)
    ensures Normalize(raw) == None
  {
    assert raw == raw + [];
    StripLeftDrops(raw, []);
  }

  lemma NotBlank(raw: string, left: string, core: string, right: string)
    requires Surrounded(raw, left, core, right)
    ensures !AllSpace(raw)
  {
    assert raw[|left|] == core[0];
  }

  // ---------------------------------------------------------------- codes as numbers

  function DigitValue(c: char): nat
    requires IsCodeChar(c)
  {
    if IsDigit(c) then (c - '0') as nat else 10 + (c - 'A') as nat
  }

  /** Reading a code in base 36. */
  function Rank(s: string): nat
    requires forall i :: 0 <= i < |s| ==> IsCodeChar(s[i])
  {
    if s == [] then 0 else Rank(s[..|s| - 1]) * 36 + DigitValue(s[|s| - 1])
  }

  /** Python's order on strings of equal length. */
  predicate Before(a: string, b: string)
    requires |a| == |b|
  {
    a != [] && (Before(a[..|a| - 1], b[..|b| - 1]) || (a[..|a| - 1] == b[..|b| - 1] && a[|a| - 1] < b[|b| - 1]))
  }

  lemma DigitOrder(c: char, d: char)
    requires IsCodeChar(c) && IsCodeChar(d)
    ensures DigitValue(c) < 36 && DigitValue(d) < 36
    ensures (DigitValue(c) < DigitValue(d) <==> c < d) && (DigitValue(c) == DigitValue(d) <==> c == d)
  {
  }

  lemma LastDigitDecides(q1: nat, r1: nat, q2: nat, r2: nat)
    requires r1 < 36 && r2 < 36
    ensures q1 * 36 + r1 < q2 * 36 + r2 <==> q1 < q2 || (q1 == q2 && r1 < r2)
    ensures q1 * 36 + r1 == q2 * 36 + r2 <==> q1 == q2 && r1 == r2
  {
  }

  /** Codes can be modelled by integers: the base-36 value orders and distinguishes them exactly as Python does. */
  lemma {:induction false} RankOrdersCodes(a: string, b: string)
    requires |a| == |b|
    requires forall i :: 0 <= i < |a| ==> IsCodeChar(a[i]) && IsCodeChar(b[i])
    ensures Rank(a) < Rank(b) <==> Before(a, b)
    ensures Rank(a) == Rank(b) <==> a == b
  {
    hide DigitValue;
    if a != [] {
      var n := |a| - 1;
      DigitOrder(a[n], b[n]);
      RankOrdersCodes(a[..n], b[..n]);
      LastDigitDecides(Rank(a[..n]), DigitValue(a[n]), Rank(b[..n]), DigitValue(b[n]));
      assert a == a[..n] + [a[n]] && b == b[..n] + [b[n]];
    }
  }

  // ---------------------------------------------------------------- rotation

  function Rotate<T>(items: seq<T>, offset: int): (r: seq<T>)
    ensures |r| == |items|
  {
    if items == [] then items
    else
      var k := offset % |items|;
      items[k..] + items[..k]
  }

  lemma QuotientUnique(q1: int, r1: int, q2: int, r2: int, p: int)
    requires p > 0 && q1 * p + r1 == q2 * p + r2 && 0 <= r1 < p && 0 <= r2 < p
    ensures q1 == q2 && r1 == r2
  {
    if q1 > q2 {
      MulLeft(q2 + 1, q1, p);
    } else if q1 < q2 {
      MulLeft(q1 + 1, q2, p);
    }
  }

  lemma MulLeft(a: int, b: int, p: int)
    requires a <= b && p >= 0
    ensures a * p <= b * p
  {
  }

  lemma ModUnique(x: int, p: int, q: int, r: int)
    requires p > 0 && x == q * p + r && 0 <= r < p
    ensures x % p == r && x / p == q
  {
    assert x == x / p * p + x % p;
    QuotientUnique(x / p, x % p, q, r, p);
  }

  /** Place j of the rotated list shows the item j places after the offset, around the list. */
  lemma RotateAt<T>(items: seq<T>, offset: int, j: nat)
    requires j < |items|
    ensures Rotate(items, offset)[j] == items[(offset + j) % |items|]
  {
    var p := |items|;
    var q, k := offset / p, offset % p;
    assert offset == q * p + k;
    if k + j < p {
      ModUnique(offset + j, p, q, k + j);
    } else {
      ModUnique(offset + j, p, q + 1, k + j - p);
    }
  }

  /** Number of ticks needed to go once around p items, n at a time. */
  function Ticks(p: nat, n: nat): nat
    requires n > 0
  {
    (p + n - 1) / n
  }

  lemma TicksCover(p: nat, n: nat)
    requires n > 0
    ensures Ticks(p, n) * n >= p
  {
    var x := p + n - 1;
    assert x == x / n * n + x % n;
  }

  /** At tick t, the code sits at place j of the n places that matter. */
  ghost predicate Shows<T>(items: seq<T>, n: nat, t: nat, j: nat, x: T) {
    j < n && j < |items| && Rotate(items, t * n)[j] == x
  }

  /**
   * Rotation coverage: stepping n places a tick, any ceil(p / n) consecutive ticks bring every one of the
   * p items into the first n places of the rotated list.
   */
  lemma {:induction false} RotationCovers<T>(items: seq<T>, n: nat, start: nat, x: nat)
    requires n > 0 && x < |items|
    ensures exists t: nat, j: nat :: start <= t < start + Ticks(|items|, n) && Shows(items, n, t, j, items[x])
  {
    hide Rotate, Ticks;
    var t, k := PlaceInWindow(|items|, n, start, x);
    RotateAt(items, t * n, k);
    assert Shows(items, n, t, k, items[x]);
  }

  /** The tick of the window, and the place among the first n, at which item x turns up. */
  lemma PlaceInWindow(p: nat, n: nat, start: nat, x: nat) returns (t: nat, k: nat)
    requires n > 0 && x < p
    ensures start <= t < start + Ticks(p, n) && k < n && k < p && (t * n + k) % p == x
  {
    hide Ticks;
    var y := NextPlace(start * n, p, x);
    TicksCover(p, n);
    t := y / n;
    var j := y % n;
    assert y == t * n + j;
    TickInWindow(start, n, Ticks(p, n), t, j);
    PlaceAgain(t * n, j, p, x);
    k := j % p;
    RemainderSmaller(j, p);
  }

  lemma RemainderSmaller(j: nat, p: nat)
    requires p > 0
    ensures j % p <= j && j % p < p
  {
    assert j == j / p * p + j % p;
    MulLeft(0, j / p, p);
  }

  /** The first place at or after an offset that shows item x. */
  ghost function NextPlace(first: nat, p: nat, x: nat): (y: nat)
    requires x < p
    ensures first <= y < first + p && y % p == x
  {
    var y := first + (x - first) % p;
    var d := (x - first) / p;
    assert x - first == d * p + (x - first) % p;
    ModUnique(y, p, -d, x);
    y
  }

  /** Going further around the list by whole turns shows the same item. */
  lemma PlaceAgain(offset: int, j: nat, p: nat, x: nat)
    requires x < p && (offset + j) % p == x
    ensures (offset + j % p) % p == x
  {
    var e, f := (offset + j) / p, j / p;
    assert offset + j == e * p + x && j == f * p + j % p;
    assert (e - f) * p == e * p - f * p;
    ModUnique(offset + j % p, p, e - f, x);
  }

  lemma TickInWindow(start: nat, n: nat, ticks: nat, t: int, j: int)
    requires n > 0 && 0 <= j < n && start * n <= t * n + j < start * n + ticks * n
    ensures start <= t < start + ticks
  {
    assert (start + ticks) * n == start * n + ticks * n;
    if t < start {
      MulLeft(t + 1, start, n);
    }
    if t >= start + ticks {
      MulLeft(start + ticks, t, n);
    }
  }

  // ---------------------------------------------------------------- taking from a stream

  ghost predicate NoDuplicates<T>(s: seq<T>) {
    forall i, j :: 0 <= i < j < |s| ==> s[i] != s[j]
  }

  ghost function SetOf<T>(s: seq<T>): set<T> {
    set x | x in s
  }

  /** Append the new codes of a stream, in order, until the result has `cap` entries. */
  function Take<T(==)>(result: seq<T>, stream: seq<T>, cap: int): seq<T>
    decreases |stream|
  {
    if stream == [] || |result| >= cap then result
    else if stream[0] in result then Take(result, stream[1..], cap)
    else Take(result + [stream[0]], stream[1..], cap)
  }

  /** The growing loop with its set of seen codes. */
  method TakeInto<T(==)>(result0: seq<T>, seen0: set<T>, stream: seq<T>, cap: int) returns (result: seq<T>, seen: set<T>)
    requires forall x :: x in seen0 <==> x in result0
    ensures result == Take(result0, stream, cap)
    ensures forall x :: x in seen <==> x in result
  {
    result, seen := result0, seen0;
    for i := 0 to |stream|
      invariant forall x :: x in seen <==> x in result
      invariant Take(result, stream[i..], cap) == Take(result0, stream, cap)
    {
      if |result| >= cap {
        return;
      }
      assert stream[i..][0] == stream[i] && stream[i..][1..] == stream[i + 1..];
      if stream[i] !in seen {
        seen := seen + {stream[i]};
        result := result + [stream[i]];
      }
    }
  }

  /** Taking keeps what was there, adds only stream members, and never repeats. */
  lemma {:induction false} TakeExtends<T>(result: seq<T>, stream: seq<T>, cap: int)
    requires NoDuplicates(result)
    ensures var r := Take(result, stream, cap);
      result <= r && NoDuplicates(r) && forall x :: x in r ==> x in result || x in stream
    decreases |stream|
  {
    if stream != [] && |result| < cap {
      var rest := stream[1..];
      assert forall x :: x in rest ==> x in stream;
      if stream[0] in result {
        TakeExtends(result, rest, cap);
      } else {
        var more := result + [stream[0]];
        TakeExtends(more, rest, cap);
        assert more[..|result|] == result;
        assert forall x :: x in more ==> x in result || x == stream[0];
      }
    }
  }

  /** How many codes of a stream are not in the result yet. */
  ghost function NewCount<T>(result: seq<T>, stream: seq<T>): nat {
    |SetOf(stream) - SetOf(result)|
  }

  lemma NewCountStep<T>(result: seq<T>, stream: seq<T>)
    requires stream != []
    ensures stream[0] in result ==> NewCount(result, stream) == NewCount(result, stream[1..])
    ensures stream[0] !in result ==> NewCount(result, stream) == NewCount(result + [stream[0]], stream[1..]) + 1
  {
    var head, rest := stream[0], stream[1..];
    assert stream == [head] + rest;
    assert SetOf(stream) == SetOf(rest) + {head};
    if head in result {
      assert SetOf(stream) - SetOf(result) == SetOf(rest) - SetOf(result);
    } else {
      assert SetOf(result + [head]) == SetOf(result) + {head};
      var left := SetOf(rest) - SetOf(result + [head]);
      assert SetOf(stream) - SetOf(result) == left + {head};
      assert head !in left;
    }
  }

  /** Exactly how long the result gets: the cap, unless the stream has too few new codes, never shrinking. */
  lemma {:induction false} TakeLength<T>(result: seq<T>, stream: seq<T>, cap: int)
    ensures var found := NewCount(result, stream);
      |Take(result, stream, cap)| == (if |result| >= cap then |result| else if |result| + found <= cap then |result| + found else cap)
    decreases |stream|
  {
    hide NewCount;
    if stream == [] {
      NothingNew(result);
    } else if |result| < cap {
      NewCountStep(result, stream);
      if stream[0] in result {
        TakeLength(result, stream[1..], cap);
      } else {
        TakeLength(result + [stream[0]], stream[1..], cap);
      }
    }
  }

  lemma NothingNew<T>(result: seq<T>)
    ensures NewCount(result, []) == 0
  {
    assert SetOf<T>([]) == {};
  }

  /** The first codes of a stream all make it in while the cap leaves room for that many. */
  lemma {:induction false} TakeReaches<T>(result: seq<T>, stream: seq<T>, cap: int, j: nat)
    requires j < |stream| && |result| + j < cap
    ensures stream[j] in Take(result, stream, cap)
    decreases |stream|
  {
    var rest := stream[1..];
    var next := if stream[0] in result then result else result + [stream[0]];
    if j == 0 {
      assert stream[0] in next;
      TakeKeeps(next, rest, cap);
    } else {
      assert rest[j - 1] == stream[j];
      TakeReaches(next, rest, cap, j - 1);
    }
  }

  lemma {:induction false} TakeKeeps<T>(result: seq<T>, stream: seq<T>, cap: int)
    ensures result <= Take(result, stream, cap)
    decreases |stream|
  {
    if stream != [] && |result| < cap {
      if stream[0] in result {
        TakeKeeps(result, stream[1..], cap);
      } else {
        var more := result + [stream[0]];
        TakeKeeps(more, stream[1..], cap);
        assert more[..|result|] == result;
      }
    }
  }

  /** A stream that was not cut off by the cap is used up. */
  lemma {:induction false} TakeExhausts<T>(result: seq<T>, stream: seq<T>, cap: int, x: T)
    requires x in stream && |Take(result, stream, cap)| < cap
    ensures x in Take(result, stream, cap)
    decreases |stream|
  {
    TakeKeeps(result, stream, cap);
    var next := if stream[0] in result then result else result + [stream[0]];
    if x == stream[0] {
      assert x in next;
      TakeKeeps(next, stream[1..], cap);
    } else {
      TakeExhausts(next, stream[1..], cap, x);
    }
  }

  // ---------------------------------------------------------------- the universe of a tick

  /** Normalised watchlist, first occurrences in order; never capped. */
  function Watchlist(listed: seq<string>): (r: seq<Code>)
    ensures NoDuplicates(r)
  {
    if listed == [] then []
    else
      var before := Watchlist(listed[..|listed| - 1]);
      match Normalize(listed[|listed| - 1])
      case None => before
      case Some(code) => if code in before then before else before + [code]
  }

  /** The watchlist is exactly the normal forms of the listed strings. */
  lemma {:induction false} WatchlistMembers(listed: seq<string>, code: Code)
    ensures code in Watchlist(listed) <==> exists i :: 0 <= i < |listed| && Normalize(listed[i]) == Some(code)
  {
    hide Normalize;
    if listed != [] {
      var n := |listed| - 1;
      WatchlistMembers(listed[..n], code);
      if i :| 0 <= i < n && Normalize(listed[..n][i]) == Some(code) {
        assert Normalize(listed[i]) == Some(code);
      }
      forall i | 0 <= i < n && Normalize(listed[i]) == Some(code) ensures code in Watchlist(listed[..n]) {
        assert Normalize(listed[..n][i]) == Some(code);
      }
    }
  }

  function Ceil(x: real): int {
    -((-x).Floor)
  }

  /** Slots set aside for exploring: the ratio of the limit rounded up, at least one. */
  function ExploreSlots(limit: int, ratio: real): int {
    var n := Ceil(limit as real * ratio);
    if n > 1 then n else 1
  }

  function ExploitSlots(limit: int, ratio: real): nat {
    if limit > ExploreSlots(limit, ratio) then limit - ExploreSlots(limit, ratio) else 0
  }

  function Stale(seed: seq<Code>, recent: set<Code>): seq<Code> {
    if seed == [] then []
    else (if seed[0] in recent then [] else [seed[0]]) + Stale(seed[1..], recent)
  }

  function AfterExploit(limit: int, watch: seq<Code>, tick: nat, pool: seq<Code>, ratio: real): seq<Code> {
    var n := ExploitSlots(limit, ratio);
    Take(watch, Rotate(pool, tick * (if n > 1 then n else 1)), |watch| + n)
  }

  function AfterExplore(seed: seq<Code>, limit: int, watch: seq<Code>, tick: nat, pool: seq<Code>, recent: set<Code>, ratio: real): seq<Code> {
    Take(AfterExploit(limit, watch, tick, pool, ratio), Rotate(Stale(seed, recent), tick * ExploreSlots(limit, ratio)), limit)
  }

  function Universe(seed: seq<Code>, limit: int, watch: seq<Code>, tick: nat, pool: seq<Code>, recent: set<Code>, ratio: real): seq<Code> {
    Take(AfterExplore(seed, limit, watch, tick, pool, recent, ratio), Rotate(seed, tick * limit), limit)
  }

  method NormalizeWatchlist(listed: seq<string>) returns (result: seq<Code>, seen: set<Code>)
    ensures result == Watchlist(listed)
    ensures forall x :: x in seen <==> x in result
  {
    result, seen := [], {};
    for i := 0 to |listed|
      invariant result == Watchlist(listed[..i])
      invariant forall x :: x in seen <==> x in result
    {
      assert listed[..i + 1][..i] == listed[..i];
      var code := Normalize(listed[i]);
      if code.Some? && code.value !in seen {
        seen := seen + {code.value};
        result := result + [code.value];
      }
    }
    assert listed[..|listed|] == listed;
  }

  method ResolveUniverse(
    seed: seq<Code>, limit: int, listed: seq<string>, tick: nat, pool: seq<Code>, recent: set<Code>, ratio: real)
    returns (result: seq<Code>)
    ensures result == Universe(seed, limit, Watchlist(listed), tick, pool, recent, ratio)
  {
    hide Take, Rotate, Stale, ExploreSlots, ExploitSlots, SetOf;
    var seen;
    result, seen := NormalizeWatchlist(listed);
    var nExplore, nExploit := ExploreSlots(limit, ratio), ExploitSlots(limit, ratio);
    var base := |result|;
    result, seen := TakeInto(result, seen, Rotate(pool, tick * (if nExploit > 1 then nExploit else 1)), base + nExploit);
    result, seen := TakeInto(result, seen, Rotate(Stale(seed, recent), tick * nExplore), limit);
    result, seen := TakeInto(result, seen, Rotate(seed, tick * limit), limit);
  }

  /** The single-source resolution: watchlist, then the rotated source up to the limit, when there is one. */
  function Resolved(source: seq<Code>, limit: Option<int>, watch: seq<Code>, offset: int): seq<Code> {
    Take(watch, if offset != 0 && source != [] then Rotate(source, offset) else source,
         if limit.Some? then limit.value else |watch| + |source|)
  }

  method ResolveSymbols(source: seq<Code>, limit: Option<int>, listed: seq<string>, offset: int) returns (result: seq<Code>)
    ensures result == Resolved(source, limit, Watchlist(listed), offset)
  {
    hide Take, Rotate, Watchlist, NoDuplicates;
    var seen;
    result, seen := NormalizeWatchlist(listed);
    var entries := if offset != 0 && source != [] then Rotate(source, offset) else source;
    var cap := if limit.Some? then limit.value else |result| + |source|;
    result, seen := TakeInto(result, seen, entries, cap);
  }

  // ---------------------------------------------------------------- laws of the universe

  lemma RotateKeepsMembers<T>(items: seq<T>, offset: int, x: T)
    ensures x in Rotate(items, offset) <==> x in items
  {
    if items != [] {
      var k := offset % |items|;
      assert items == items[..k] + items[k..];
    }
  }

  /**
   * The shape of every universe: no duplicates, the watchlist in front, members only from the watchlist,
   * the pool and the seed, and either the limit is reached or the whole seed is in.
   */
  lemma {:induction false} UniverseShape(
    seed: seq<Code>, limit: int, watch: seq<Code>, tick: nat, pool: seq<Code>, recent: set<Code>, ratio: real)
    requires NoDuplicates(watch)
    ensures var u := Universe(seed, limit, watch, tick, pool, recent, ratio);
      NoDuplicates(u) && watch <= u && (|u| >= limit || forall x :: x in seed ==> x in u)
      && forall x :: x in u ==> x in watch || x in pool || x in seed
  {
    hide ExploreSlots, ExploitSlots, Stale, Rotate;
    var a := AfterExploit(limit, watch, tick, pool, ratio);
    var b := AfterExplore(seed, limit, watch, tick, pool, recent, ratio);
    var n := ExploitSlots(limit, ratio);
    TakeExtends(watch, Rotate(pool, tick * (if n > 1 then n else 1)), |watch| + n);
    TakeExtends(a, Rotate(Stale(seed, recent), tick * ExploreSlots(limit, ratio)), limit);
    TakeExtends(b, Rotate(seed, tick * limit), limit);
    var u := Universe(seed, limit, watch, tick, pool, recent, ratio);
    forall x | x in u ensures x in watch || x in pool || x in seed {
      RotateKeepsMembers(pool, tick * (if n > 1 then n else 1), x);
      RotateKeepsMembers(Stale(seed, recent), tick * ExploreSlots(limit, ratio), x);
      RotateKeepsMembers(seed, tick * limit, x);
      StaleFromSeed(seed, recent, x);
    }
    if |u| < limit {
      forall x | x in seed ensures x in u {
        RotateKeepsMembers(seed, tick * limit, x);
        TakeExhausts(b, Rotate(seed, tick * limit), limit, x);
      }
    }
  }

  lemma {:induction false} StaleFromSeed(seed: seq<Code>, recent: set<Code>, x: Code)
    ensures x in Stale(seed, recent) <==> x in seed && x !in recent
  {
    if seed != [] {
      StaleFromSeed(seed[1..], recent, x);
      assert seed == [seed[0]] + seed[1..];
    }
  }

  lemma AfterExploitLength(limit: int, watch: seq<Code>, tick: nat, pool: seq<Code>, ratio: real)
    requires NoDuplicates(watch)
    ensures NoDuplicates(AfterExploit(limit, watch, tick, pool, ratio))
    ensures var n, found := ExploitSlots(limit, ratio), NewCount(watch, pool);
      |AfterExploit(limit, watch, tick, pool, ratio)| == |watch| + (if found <= n then found else n)
  {
    hide ExploitSlots, Rotate;
    var n := ExploitSlots(limit, ratio);
    var stream := Rotate(pool, tick * (if n > 1 then n else 1));
    TakeExtends(watch, stream, |watch| + n);
    TakeLength(watch, stream, |watch| + n);
    forall x ensures x in SetOf(stream) <==> x in SetOf(pool) {
      RotateKeepsMembers(pool, tick * (if n > 1 then n else 1), x);
    }
    assert SetOf(stream) == SetOf(pool);
  }

  /**
   * How long a universe can get: never beyond the larger of the limit and watchlist plus exploit slots,
   * and within the limit exactly when the watchlist and the new pool codes that fit its slots are.
   */
  lemma {:induction false} UniverseLength(
    seed: seq<Code>, limit: int, watch: seq<Code>, tick: nat, pool: seq<Code>, recent: set<Code>, ratio: real)
    requires NoDuplicates(watch)
    ensures var u := Universe(seed, limit, watch, tick, pool, recent, ratio);
      var n, found := ExploitSlots(limit, ratio), NewCount(watch, pool);
      (|u| <= limit || |u| <= |watch| + n)
      && (|u| <= limit <==> |watch| + (if found <= n then found else n) <= limit)
  {
    hide ExploreSlots, ExploitSlots, Stale, Rotate, AfterExploit;
    var a := AfterExploit(limit, watch, tick, pool, ratio);
    var b := AfterExplore(seed, limit, watch, tick, pool, recent, ratio);
    AfterExploitLength(limit, watch, tick, pool, ratio);
    var stale := Rotate(Stale(seed, recent), tick * ExploreSlots(limit, ratio));
    TakeExtends(a, stale, limit);
    TakeLength(a, stale, limit);
    TakeLength(b, Rotate(seed, tick * limit), limit);
  }

  /** The failing input: a watchlist and a pool push the universe past its limit. */
  lemma LimitCanBeExceeded()
    ensures var watch, pool := ["000001", "000002"], ["000003", "000004"];
      |Universe([], 2, watch, 0, pool, {}, 0.2)| == 3
  {
    var watch, pool := ["000001", "000002"], ["000003", "000004"];
    assert ExploreSlots(2, 0.2) == 1;
    assert SetOf(pool) - SetOf(watch) == {pool[0], pool[1]};
    assert watch[0][5] != watch[1][5] && pool[0][5] != pool[1][5];
    AfterExploitLength(2, watch, 0, pool, 0.2);
    assert Stale([], {}) == [];
  }

  /** Pool coverage: any ceil(p / slots) consecutive ticks put every pool code in some universe. */
  lemma {:induction false} PoolIsCovered(
    seed: seq<Code>, limit: int, watch: seq<Code>, start: nat, pool: seq<Code>, recent: set<Code>, ratio: real, x: nat)
    requires ExploitSlots(limit, ratio) >= 1 && x < |pool|
    ensures exists t: nat :: (start <= t < start + Ticks(|pool|, ExploitSlots(limit, ratio))
                              && pool[x] in Universe(seed, limit, watch, t, pool, recent, ratio))
  {
    hide ExploreSlots, ExploitSlots, Stale, Rotate;
    var n := ExploitSlots(limit, ratio);
    RotationCovers(pool, n, start, x);
    var t: nat, j: nat :| start <= t < start + Ticks(|pool|, n) && Shows(pool, n, t, j, pool[x]);
    TakeReaches(watch, Rotate(pool, t * n), |watch| + n, j);
    TakeKeeps(AfterExploit(limit, watch, t, pool, ratio), Rotate(Stale(seed, recent), t * ExploreSlots(limit, ratio)), limit);
    TakeKeeps(AfterExplore(seed, limit, watch, t, pool, recent, ratio), Rotate(seed, t * limit), limit);
    assert pool[x] in Universe(seed, limit, watch, t, pool, recent, ratio);
  }

  // ---------------------------------------------------------------- exploration, exactly

  /** What the watchlist and the pool leave of the limit; negative when they exceed it.  It is the same at every tick. */
  ghost function RoomToExplore(limit: int, watch: seq<Code>, pool: seq<Code>, ratio: real): int {
    var n, found := ExploitSlots(limit, ratio), NewCount(watch, pool);
    limit - |watch| - (if found <= n then found else n)
  }

  /** Some tick of the window that begins at `start` and goes once around m stale codes has stale code x in its universe. */
  ghost predicate Explored(
    seed: seq<Code>, limit: int, watch: seq<Code>, pool: seq<Code>, recent: set<Code>, ratio: real, start: nat, x: nat)
    requires x < |Stale(seed, recent)|
  {
    exists t: nat :: (start <= t < start + Ticks(|Stale(seed, recent)|, ExploreSlots(limit, ratio))
                      && Stale(seed, recent)[x] in Universe(seed, limit, watch, t, pool, recent, ratio))
  }

  /** Room for one step of the rotation, or for all stale codes at once. */
  ghost predicate EnoughRoom(seed: seq<Code>, limit: int, watch: seq<Code>, pool: seq<Code>, recent: set<Code>, ratio: real) {
    var m, room := |Stale(seed, recent)|, RoomToExplore(limit, watch, pool, ratio);
    m == 0 || room >= ExploreSlots(limit, ratio) || room >= m
  }

  /** A code among the first places of the rotated stale codes is explored while there is room for that many. */
  lemma ShownIsExplored(
    seed: seq<Code>, limit: int, watch: seq<Code>, t: nat, pool: seq<Code>, recent: set<Code>, ratio: real, j: nat)
    requires NoDuplicates(watch) && j < |Stale(seed, recent)| && j < RoomToExplore(limit, watch, pool, ratio)
    ensures Rotate(Stale(seed, recent), t * ExploreSlots(limit, ratio))[j] in Universe(seed, limit, watch, t, pool, recent, ratio)
  {
    hide ExploreSlots, ExploitSlots, Rotate, Stale, AfterExploit;
    AfterExploitLength(limit, watch, t, pool, ratio);
    TakeReaches(AfterExploit(limit, watch, t, pool, ratio), Rotate(Stale(seed, recent), t * ExploreSlots(limit, ratio)), limit, j);
    TakeKeeps(AfterExplore(seed, limit, watch, t, pool, recent, ratio), Rotate(seed, t * limit), limit);
  }

  lemma {:induction false} EnoughRoomExplores(
    seed: seq<Code>, limit: int, watch: seq<Code>, pool: seq<Code>, recent: set<Code>, ratio: real, start: nat, x: nat)
    requires NoDuplicates(watch) && EnoughRoom(seed, limit, watch, pool, recent, ratio) && x < |Stale(seed, recent)|
    ensures Explored(seed, limit, watch, pool, recent, ratio, start, x)
  {
    hide ExploreSlots, Rotate, Stale, RoomToExplore, Universe, Ticks;
    var n, stale := ExploreSlots(limit, ratio), Stale(seed, recent);
    ExploreSlotsPositive(limit, ratio);
    var t: nat, j: nat;
    if RoomToExplore(limit, watch, pool, ratio) >= n {
      RotationCovers(stale, n, start, x);
      t, j :| start <= t < start + Ticks(|stale|, n) && Shows(stale, n, t, j, stale[x]);
    } else {
      t := start;
      j := PlaceOf(stale, start * n, x);
      SomeTicks(|stale|, n);
    }
    ShownIsExplored(seed, limit, watch, t, pool, recent, ratio, j);
    assert stale[x] in Universe(seed, limit, watch, t, pool, recent, ratio);
  }

  lemma ExploreSlotsPositive(limit: int, ratio: real)
    ensures ExploreSlots(limit, ratio) >= 1
  {
  }

  lemma SomeTicks(p: nat, n: nat)
    requires p > 0 && n > 0
    ensures Ticks(p, n) >= 1
  {
    hide Ticks;
    TicksCover(p, n);
  }

  /** Where a rotated list shows item x. */
  lemma PlaceOf<T>(items: seq<T>, offset: nat, x: nat) returns (j: nat)
    requires x < |items|
    ensures j < |items| && Rotate(items, offset)[j] == items[x]
  {
    hide Rotate;
    j := NextPlace(offset, |items|, x) - offset;
    RotateAt(items, offset, j);
  }

  /** Different places show different codes. */
  lemma RotateNoDuplicates<T>(items: seq<T>, offset: int)
    requires NoDuplicates(items)
    ensures NoDuplicates(Rotate(items, offset))
  {
    if items != [] {
      var k := offset % |items|;
      assert forall i :: 0 <= i < |items| ==> Rotate(items, offset)[i] == items[if k + i < |items| then k + i else k + i - |items|];
    }
  }

  /** Taking distinct new codes takes a prefix of them. */
  lemma {:induction false} TakePrefix<T>(result: seq<T>, stream: seq<T>, cap: int, k: nat)
    requires NoDuplicates(stream) && (forall x :: x in stream ==> x !in result)
    requires k <= |stream| && k == (if cap <= |result| then 0 else if cap - |result| <= |stream| then cap - |result| else |stream|)
    ensures Take(result, stream, cap) == result + stream[..k]
    decreases |stream|
  {
    if k == 0 {
      assert result + stream[..0] == result;
    } else {
      var more, rest := result + [stream[0]], stream[1..];
      assert forall x :: x in rest ==> x in stream && x != stream[0];
      TakePrefix(more, rest, cap, k - 1);
      assert result + stream[..k] == more + rest[..k - 1];
    }
  }

  /** The stale codes are distinct, and neither listed nor in the pool. */
  ghost predicate Separate(stale: seq<Code>, watch: seq<Code>, pool: seq<Code>) {
    NoDuplicates(stale) && forall x :: x in stale ==> x !in watch && x !in pool
  }

  lemma AfterExploitMembers(limit: int, watch: seq<Code>, tick: nat, pool: seq<Code>, ratio: real, x: Code)
    requires NoDuplicates(watch) && x !in watch && x !in pool
    ensures x !in AfterExploit(limit, watch, tick, pool, ratio)
  {
    hide ExploitSlots, Rotate;
    var n := ExploitSlots(limit, ratio);
    TakeExtends(watch, Rotate(pool, tick * (if n > 1 then n else 1)), |watch| + n);
    RotateKeepsMembers(pool, tick * (if n > 1 then n else 1), x);
  }

  /** With too little room for all stale codes, a universe holds exactly as many of the rotated ones as there is room. */
  lemma TightUniverse(
    seed: seq<Code>, limit: int, watch: seq<Code>, t: nat, pool: seq<Code>, recent: set<Code>, ratio: real)
    requires NoDuplicates(watch) && Separate(Stale(seed, recent), watch, pool)
    requires RoomToExplore(limit, watch, pool, ratio) <= |Stale(seed, recent)|
    ensures var room := RoomToExplore(limit, watch, pool, ratio); var k := if room > 0 then room else 0;
      Universe(seed, limit, watch, t, pool, recent, ratio) == AfterExploit(limit, watch, t, pool, ratio)
        + Rotate(Stale(seed, recent), t * ExploreSlots(limit, ratio))[..k]
  {
    hide ExploreSlots, ExploitSlots, Rotate, Stale, AfterExploit;
    var a, stream := AfterExploit(limit, watch, t, pool, ratio), Rotate(Stale(seed, recent), t * ExploreSlots(limit, ratio));
    var room := RoomToExplore(limit, watch, pool, ratio);
    AfterExploitLength(limit, watch, t, pool, ratio);
    RotateNoDuplicates(Stale(seed, recent), t * ExploreSlots(limit, ratio));
    forall x | x in stream ensures x !in a {
      RotateKeepsMembers(Stale(seed, recent), t * ExploreSlots(limit, ratio), x);
      AfterExploitMembers(limit, watch, t, pool, ratio, x);
    }
    TakePrefix(a, stream, limit, if room > 0 then room else 0);
    TakeSaturated(AfterExplore(seed, limit, watch, t, pool, recent, ratio), Rotate(seed, t * limit), limit);
  }

  /** In the first window the last of the codes the rotation starts with never gets nearer to the front. */
  lemma LastShownLate(m: nat, n: nat, t: nat, j: nat, x: nat)
    requires m > 0 && n > 0 && t < Ticks(m, n) && j < m && (t * n + j) % m == x && x == (if n <= m then n else m) - 1
    ensures j >= x
  {
    hide Ticks;
    TicksAreFew(m, n);
    if t > 0 {
      MulLeft(1, t, n);
      MulLeft(t, Ticks(m, n) - 1, n);
      assert t * n + j < 2 * m;
      if t * n + j < m {
        ModUnique(t * n + j, m, 0, t * n + j);
      } else {
        ModUnique(t * n + j, m, 1, t * n + j - m);
      }
    } else {
      ModUnique(j, m, 0, j);
    }
  }

  lemma TicksAreFew(m: nat, n: nat)
    requires m > 0 && n > 0
    ensures (Ticks(m, n) - 1) * n < m
  {
    var x := m + n - 1;
    assert x == x / n * n + x % n;
    assert (Ticks(m, n) - 1) * n == Ticks(m, n) * n - n;
  }

  lemma {:induction false} TooLittleRoomMisses(seed: seq<Code>, limit: int, watch: seq<Code>, pool: seq<Code>, recent: set<Code>, ratio: real)
    requires NoDuplicates(watch) && Separate(Stale(seed, recent), watch, pool)
    requires !EnoughRoom(seed, limit, watch, pool, recent, ratio)
    ensures var m, n := |Stale(seed, recent)|, ExploreSlots(limit, ratio);
      m > 0 && n > 0 && !Explored(seed, limit, watch, pool, recent, ratio, 0, (if n <= m then n else m) - 1)
  {
    hide ExploreSlots, Rotate, Stale, RoomToExplore, Universe, Ticks, AfterExploit;
    var n, stale := ExploreSlots(limit, ratio), Stale(seed, recent);
    ExploreSlotsPositive(limit, ratio);
    var x := (if n <= |stale| then n else |stale|) - 1;
    forall t: nat | t < Ticks(|stale|, n) ensures stale[x] !in Universe(seed, limit, watch, t, pool, recent, ratio) {
      MissedAt(seed, limit, watch, pool, recent, ratio, t, x);
    }
  }

  lemma MissedAt(seed: seq<Code>, limit: int, watch: seq<Code>, pool: seq<Code>, recent: set<Code>, ratio: real, t: nat, x: nat)
    requires NoDuplicates(watch) && Separate(Stale(seed, recent), watch, pool)
    requires !EnoughRoom(seed, limit, watch, pool, recent, ratio)
    requires var m, n := |Stale(seed, recent)|, ExploreSlots(limit, ratio);
      m > 0 && n > 0 && t < Ticks(m, n) && x == (if n <= m then n else m) - 1
    ensures Stale(seed, recent)[x] !in Universe(seed, limit, watch, t, pool, recent, ratio)
  {
    hide ExploreSlots, Rotate, Stale, RoomToExplore, Universe, Ticks, AfterExploit;
    var n, stale := ExploreSlots(limit, ratio), Stale(seed, recent);
    TightUniverse(seed, limit, watch, t, pool, recent, ratio);
    AfterExploitMembers(limit, watch, t, pool, ratio, stale[x]);
    var room := RoomToExplore(limit, watch, pool, ratio);
    var shown := Rotate(stale, t * n)[..if room > 0 then room else 0];
    if stale[x] in shown {
      var j :| 0 <= j < |shown| && shown[j] == stale[x];
      RotateAt(stale, t * n, j);
      assert (t * n + j) % |stale| == x;
      LastShownLate(|stale|, n, t, j, x);
    }
  }

  /**
   * Exploration coverage, exactly: for distinct stale codes outside the watchlist and the pool, every one of them
   * turns up in any window of ceil(m / slots) ticks if and only if the watchlist and the pool leave room for the
   * explore slots, or for all stale codes at once.
   */
  lemma {:induction false} ExploredExactlyWhenRoom(
    seed: seq<Code>, limit: int, watch: seq<Code>, pool: seq<Code>, recent: set<Code>, ratio: real)
    requires NoDuplicates(watch) && Separate(Stale(seed, recent), watch, pool)
    ensures (forall start: nat, x: nat :: x < |Stale(seed, recent)| ==> Explored(seed, limit, watch, pool, recent, ratio, start, x))
      <==> EnoughRoom(seed, limit, watch, pool, recent, ratio)
  {
    hide Explored, EnoughRoom, Stale, ExploreSlots;
    if EnoughRoom(seed, limit, watch, pool, recent, ratio) {
      forall start: nat, x: nat | x < |Stale(seed, recent)| ensures Explored(seed, limit, watch, pool, recent, ratio, start, x) {
        EnoughRoomExplores(seed, limit, watch, pool, recent, ratio, start, x);
      }
    } else {
      TooLittleRoomMisses(seed, limit, watch, pool, recent, ratio);
    }
  }

  lemma SlotsShareLimit(limit: int, ratio: real)
    requires limit >= 1 && ratio <= 1.0
    ensures ExploreSlots(limit, ratio) >= 1 && ExploitSlots(limit, ratio) + ExploreSlots(limit, ratio) == limit
  {
    assert limit as real * ratio <= limit as real;
  }

  /** Without a watchlist there is always enough room. */
  lemma {:induction false} StaleIsCovered(
    seed: seq<Code>, limit: int, start: nat, pool: seq<Code>, recent: set<Code>, ratio: real, x: nat)
    requires limit >= 1 && ratio <= 1.0 && x < |Stale(seed, recent)|
    ensures ExploreSlots(limit, ratio) >= 1
    ensures Explored(seed, limit, [], pool, recent, ratio, start, x)
  {
    hide ExploreSlots, ExploitSlots, Stale, Explored;
    SlotsShareLimit(limit, ratio);
    EnoughRoomExplores(seed, limit, [], pool, recent, ratio, start, x);
  }

  /** No room at all: the watchlist and the exploited codes are the whole universe, whatever the seed. */
  lemma {:induction false} NoRoomNoExploration(
    seed: seq<Code>, limit: int, watch: seq<Code>, tick: nat, pool: seq<Code>, recent: set<Code>, ratio: real)
    requires NoDuplicates(watch) && RoomToExplore(limit, watch, pool, ratio) <= 0
    ensures Universe(seed, limit, watch, tick, pool, recent, ratio) == AfterExploit(limit, watch, tick, pool, ratio)
    ensures forall x :: x in Universe(seed, limit, watch, tick, pool, recent, ratio) ==> x in watch || x in pool
    ensures pool == [] ==> Universe(seed, limit, watch, tick, pool, recent, ratio) == watch
  {
    hide ExploreSlots, ExploitSlots, Stale, Rotate, AfterExploit, Universe;
    EmptyPool(limit, watch, tick, ratio);
    AfterExploitLength(limit, watch, tick, pool, ratio);
    StopsAtLimit(seed, limit, watch, tick, pool, recent, ratio);
    forall x | x in AfterExploit(limit, watch, tick, pool, ratio) ensures x in watch || x in pool {
      if x !in watch && x !in pool {
        AfterExploitMembers(limit, watch, tick, pool, ratio, x);
      }
    }
  }

  lemma EmptyPool(limit: int, watch: seq<Code>, tick: nat, ratio: real)
    ensures AfterExploit(limit, watch, tick, [], ratio) == watch
  {
  }

  lemma StopsAtLimit(
    seed: seq<Code>, limit: int, watch: seq<Code>, tick: nat, pool: seq<Code>, recent: set<Code>, ratio: real)
    requires |AfterExploit(limit, watch, tick, pool, ratio)| >= limit
    ensures Universe(seed, limit, watch, tick, pool, recent, ratio) == AfterExploit(limit, watch, tick, pool, ratio)
  {
    hide ExploreSlots, Stale, Rotate, AfterExploit;
  }

  lemma {:induction false} NothingFresh(seed: seq<Code>)
    ensures Stale(seed, {}) == seed
  {
    if seed != [] {
      NothingFresh(seed[1..]);
    }
  }

  lemma {:induction false} TakeSaturated<T>(result: seq<T>, stream: seq<T>, cap: int)
    requires |result| >= cap || forall x :: x in stream ==> x in result
    ensures Take(result, stream, cap) == result
    decreases |stream|
  {
    if stream != [] && |result| < cap {
      assert stream[0] in stream;
      assert forall x :: x in stream[1..] ==> x in stream;
      TakeSaturated(result, stream[1..], cap);
    }
  }

  /** With no statistics yet, the two-stage choice is exactly the plain rotation by explore slots. */
  lemma {:induction false} ColdStartIsRotation(seed: seq<Code>, limit: int, watch: seq<Code>, tick: nat, ratio: real)
    ensures Universe(seed, limit, watch, tick, [], {}, ratio)
      == Resolved(seed, Some(limit), watch, tick * ExploreSlots(limit, ratio))
  {
    hide ExploreSlots, ExploitSlots;
    NothingFresh(seed);
    var offset := tick * ExploreSlots(limit, ratio);
    RotateByZero(seed);
    var once := Take(watch, Rotate(seed, offset), limit);
    if |once| < limit {
      forall x | x in Rotate(seed, tick * limit) ensures x in once {
        RotateKeepsMembers(seed, tick * limit, x);
        RotateKeepsMembers(seed, offset, x);
        TakeExhausts(watch, Rotate(seed, offset), limit, x);
      }
    }
    TakeSaturated(once, Rotate(seed, tick * limit), limit);
  }

  lemma RotateByZero<T>(items: seq<T>)
    ensures Rotate(items, 0) == items
  {
  }

  // ---------------------------------------------------------------- slots, fallback and plain resolution

  /** Explore slots: the least whole number that is at least the ratio of the limit, and at least one. */
  lemma ExploreSlotsLeast(limit: int, ratio: real)
    ensures var n := ExploreSlots(limit, ratio);
      n >= 1 && n as real >= limit as real * ratio && (n > 1 ==> (n - 1) as real < limit as real * ratio)
  {
    CeilIsLeast(limit as real * ratio);
  }

  lemma CeilIsLeast(x: real)
    ensures (Ceil(x) - 1) as real < x <= Ceil(x) as real
  {
  }

  /** The two kinds of slots share the limit; when exploring takes all of it nothing is left to exploit. */
  lemma SlotsTogether(limit: int, ratio: real)
    ensures ExploitSlots(limit, ratio) + ExploreSlots(limit, ratio)
      == if ExploreSlots(limit, ratio) <= limit then limit else ExploreSlots(limit, ratio)
  {
  }

  /** When nothing is stale, the fallback alone goes round the whole seed: any ceil(p / limit) ticks reach every code. */
  lemma {:induction false} FallbackCovers(seed: seq<Code>, limit: nat, start: nat, recent: set<Code>, ratio: real, x: nat)
    requires limit >= 1 && x < |seed| && Stale(seed, recent) == []
    ensures exists t: nat :: (start <= t < start + Ticks(|seed|, limit) && seed[x] in Universe(seed, limit, [], t, [], recent, ratio))
  {
    hide ExploreSlots, ExploitSlots, Rotate, Stale;
    RotationCovers(seed, limit, start, x);
    var t: nat, j: nat :| start <= t < start + Ticks(|seed|, limit) && Shows(seed, limit, t, j, seed[x]);
    EmptyPool(limit, [], t, ratio);
    RotateByAnything(t * ExploreSlots(limit, ratio));
    assert AfterExplore(seed, limit, [], t, [], recent, ratio) == [];
    TakeReaches([], Rotate(seed, t * limit), limit, j);
    assert seed[x] in Universe(seed, limit, [], t, [], recent, ratio);
  }

  lemma RotateByAnything(offset: int)
    ensures Rotate<Code>([], offset) == []
  {
  }

  /** Without a limit the plain resolution holds exactly the watchlist and the whole source. */
  lemma {:induction false} UnlimitedHoldsEverything(source: seq<Code>, watch: seq<Code>, offset: int, x: Code)
    requires NoDuplicates(watch)
    ensures x in Resolved(source, None, watch, offset) <==> x in watch || x in source
  {
    hide Rotate, Take;
    var stream := if offset != 0 && source != [] then Rotate(source, offset) else source;
    var cap := |watch| + |source|;
    TakeExtends(watch, stream, cap);
    RotateKeepsMembers(source, offset, x);
    TakeLength(watch, stream, cap);
    if x in stream && |Take(watch, stream, cap)| < cap {
      TakeExhausts(watch, stream, cap, x);
    }
    if x in stream && |Take(watch, stream, cap)| >= cap {
      AllNewAreTaken(watch, stream, cap, x);
    }
  }

  lemma {:induction false} AllNewAreTaken(result: seq<Code>, stream: seq<Code>, cap: int, x: Code)
    requires x in stream && cap >= |result| + |stream|
    ensures x in Take(result, stream, cap)
    decreases |stream|
  {
    var next := if stream[0] in result then result else result + [stream[0]];
    if x == stream[0] {
      assert x in next;
      TakeKeeps(next, stream[1..], cap);
    } else {
      AllNewAreTaken(next, stream[1..], cap, x);
    }
  }

  /** The plain resolution fills up in the source's rotated order: with distinct new codes it is the watchlist and a prefix. */
  lemma {:induction false} ResolvedIsPrefix(source: seq<Code>, limit: int, watch: seq<Code>, offset: int)
    requires NoDuplicates(source) && (forall x :: x in source ==> x !in watch) && |watch| <= limit <= |watch| + |source|
    ensures Resolved(source, Some(limit), watch, offset) == watch + Rotate(source, offset)[..limit - |watch|]
  {
    hide Rotate;
    RotateByZero(source);
    RotateNoDuplicates(source, offset);
    forall x | x in Rotate(source, offset) ensures x !in watch {
      RotateKeepsMembers(source, offset, x);
    }
    if source == [] {
      RotateByAnything(offset);
    }
    TakePrefix(watch, Rotate(source, offset), limit, limit - |watch|);
  }

  /** The watchlist keeps the order of the list: more entries only add at its end. */
  lemma {:induction false} WatchlistGrows(listed: seq<string>, n: nat)
    requires n <= |listed|
    ensures Watchlist(listed[..n]) <= Watchlist(listed)
  {
    hide Normalize;
    if n < |listed| {
      var before := listed[..|listed| - 1];
      WatchlistGrows(before, n);
      assert before[..n] == listed[..n];
    } else {
      assert listed[..n] == listed;
    }
  }
}
