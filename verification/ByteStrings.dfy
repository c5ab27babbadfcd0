/** Byte strings: the UTF-8 contents of the server's `String`s and the raw contents of files and
    bodies. Lexicographic order, first occurrences, splitting and joining, hexadecimal, decimal. */
module ByteStrings {
  newtype byte = b: int | 0 <= b < 256
  type Bytes = seq<byte>

  datatype Option<+T> = None | Some(value: T)

  /** The bytes of an ASCII literal. */
  function Ascii(s: string): (b: Bytes)
    ensures |b| == |s|
  {
    seq(|s|, i requires 0 <= i < |s| => (s[i] as int % 128) as byte)
  }

  lemma AsciiCodes(s: string, i: nat)
    requires i < |s| && s[i] < 128 as char
    ensures Ascii(s)[i] as int == s[i] as int
  {}

  function Min(a: nat, b: nat): nat {
    if a <= b then a else b
  }

  // ---- concatenation ----

  function Concat(pieces: seq<Bytes>): Bytes {
    if pieces == [] then [] else pieces[0] + Concat(pieces[1..])
  }

  lemma Associative(a: Bytes, b: Bytes, c: Bytes)
    ensures (a + b) + c == a + (b + c)
  {}

  lemma {:induction false} ConcatAppend(a: seq<Bytes>, b: seq<Bytes>)
    ensures Concat(a + b) == Concat(a) + Concat(b)
  {
    var t := a + b;
    if a == [] {
      assert t == b;
    } else {
      assert t[0] == a[0] && t[1..] == a[1..] + b;
      ConcatAppend(a[1..], b);
      Associative(a[0], Concat(a[1..]), Concat(b));
    }
  }

  lemma ConcatSnoc(a: seq<Bytes>, x: Bytes)
    ensures Concat(a + [x]) == Concat(a) + x
  {
    ConcatAppend(a, [x]);
    assert Concat([x]) == x + Concat([x][1..]);
  }

  // ---- lexicographic order ----

  predicate Le(a: Bytes, b: Bytes) {
    a == [] || (b != [] && (a[0] < b[0] || (a[0] == b[0] && Le(a[1..], b[1..]))))
  }

  predicate Lt(a: Bytes, b: Bytes) {
    a != b && Le(a, b)
  }

  lemma {:induction false} LeReflexive(a: Bytes)
    ensures Le(a, a)
  {
    if a != [] { LeReflexive(a[1..]); }
  }

  lemma {:induction false} LeTotal(a: Bytes, b: Bytes)
    ensures Le(a, b) || Le(b, a)
  {
    if a != [] && b != [] { LeTotal(a[1..], b[1..]); }
  }

  lemma {:induction false} LeAntisymmetric(a: Bytes, b: Bytes)
    requires Le(a, b) && Le(b, a)
    ensures a == b
  {
    if a != [] {
      LeAntisymmetric(a[1..], b[1..]);
      assert a == [a[0]] + a[1..] && b == [b[0]] + b[1..];
    }
  }

  lemma {:induction false} LeTransitive(a: Bytes, b: Bytes, c: Bytes)
    requires Le(a, b) && Le(b, c)
    ensures Le(a, c)
  {
    if a != [] && a[0] == b[0] == c[0] { LeTransitive(a[1..], b[1..], c[1..]); }
  }

  lemma LtTransitive(a: Bytes, b: Bytes, c: Bytes)
    requires Le(a, b) && Le(b, c)
    requires a != b || b != c
    ensures Lt(a, c)
  {
    LeTransitive(a, b, c);
    if a == c { LeAntisymmetric(a, b); }
  }

  lemma {:induction false} PrefixLe(p: Bytes, s: Bytes)
    requires p <= s
    ensures Le(p, s)
  {
    if p != [] { PrefixLe(p[1..], s[1..]); }
  }

  /** A string lying between a prefix and one of its extensions starts with that prefix. */
  lemma {:induction false} BetweenPrefix(p: Bytes, s: Bytes, key: Bytes)
    requires p <= key && Le(p, s) && Le(s, key)
    ensures p <= s
  {
    if p != [] {
      BetweenPrefix(p[1..], s[1..], key[1..]);
      assert p == [p[0]] + p[1..] && s == [s[0]] + s[1..];
    }
  }

  /** `a` and `b` agree before position `k` and differ there. */
  ghost predicate DifferAt(a: Bytes, b: Bytes, k: nat) {
    k < |a| && k < |b| && a[..k] == b[..k] && a[k] != b[k]
  }

  lemma DifferInTail(a: Bytes, b: Bytes, k: nat)
    requires a != [] && b != [] && a[0] == b[0]
    ensures DifferAt(a, b, k + 1) <==> DifferAt(a[1..], b[1..], k)
  {
    if k < |a| - 1 && k < |b| - 1 {
      assert a[..k + 1] == [a[0]] + a[1..][..k] && b[..k + 1] == [b[0]] + b[1..][..k];
      assert a[1..][..k] == a[..k + 1][1..] && b[1..][..k] == b[..k + 1][1..];
    }
  }

  lemma DifferAtStart(a: Bytes, b: Bytes, k: nat)
    requires DifferAt(a, b, k)
    ensures k == 0 || a[0] == b[0]
  {
    if k > 0 { assert a[..k][0] == b[..k][0]; }
  }

  lemma PrefixInTail(a: Bytes, b: Bytes)
    requires a != [] && b != [] && a[0] == b[0]
    ensures a <= b <==> a[1..] <= b[1..]
  {
    assert a == [a[0]] + a[1..] && b == [b[0]] + b[1..];
  }

  /** The order is decided by the first byte that differs, and a string comes after its prefixes. */
  lemma {:induction false} LeIff(a: Bytes, b: Bytes)
    ensures Le(a, b) <==> a <= b || exists k: nat :: DifferAt(a, b, k) && a[k] < b[k]
  {
    if a != [] && b != [] {
      if a[0] != b[0] {
        assert DifferAt(a, b, 0);
        forall k: nat | DifferAt(a, b, k)
          ensures k == 0
        {
          DifferAtStart(a, b, k);
        }
      } else {
        LeIff(a[1..], b[1..]);
        PrefixInTail(a, b);
        if k: nat :| DifferAt(a[1..], b[1..], k) && a[1..][k] < b[1..][k] {
          DifferInTail(a, b, k);
          assert a[k + 1] < b[k + 1];
        }
        if k: nat :| DifferAt(a, b, k) && a[k] < b[k] {
          DifferInTail(a, b, k - 1);
          assert a[1..][k - 1] < b[1..][k - 1];
        }
      }
    }
  }

  predicate EndsWith(s: Bytes, t: Bytes) {
    |t| <= |s| && s[|s| - |t|..] == t
  }

  lemma EndsWithIff(s: Bytes, t: Bytes)
    ensures EndsWith(s, t) <==> exists a: Bytes :: s == a + t
  {
    if EndsWith(s, t) { assert s == s[..|s| - |t|] + t; }
    if a: Bytes :| s == a + t { assert s[|s| - |t|..] == t; }
  }

  // ---- first occurrences ----

  predicate OccursAt(hay: Bytes, needle: Bytes, k: nat) {
    k + |needle| <= |hay| && hay[k..k + |needle|] == needle
  }

  lemma OccursIff(hay: Bytes, needle: Bytes, k: nat)
    ensures OccursAt(hay, needle, k) <==> exists a: Bytes, b: Bytes :: hay == a + needle + b && |a| == k
  {
    if OccursAt(hay, needle, k) { assert hay == hay[..k] + needle + hay[k + |needle|..]; }
    if a: Bytes, b: Bytes :| hay == a + needle + b && |a| == k { assert hay[k..k + |needle|] == needle; }
  }

  lemma OccursInTail(hay: Bytes, needle: Bytes, j: nat)
    requires hay != [] && j > 0
    ensures OccursAt(hay, needle, j) <==> OccursAt(hay[1..], needle, j - 1)
  {
    if j + |needle| <= |hay| {
      SliceOfSlice(hay, 1, |hay|, j - 1, j - 1 + |needle|);
    }
  }

  lemma SliceOfSlice<T>(s: seq<T>, a: nat, b: nat, c: nat, d: nat)
    requires a <= b <= |s| && c <= d <= b - a
    ensures s[a..b][c..d] == s[a + c..a + d]
  {
    forall i | 0 <= i < d - c
      ensures s[a..b][c..d][i] == s[a + c..a + d][i]
    {
      assert s[a..b][c..d][i] == s[a..b][c + i] == s[a + c + i];
    }
  }

  /** `str::find` and `windows(n).position(..)`: the first position where the needle occurs. */
  function Find(hay: Bytes, needle: Bytes): (r: Option<nat>)
    ensures r.Some? ==> r.value + |needle| <= |hay|
  {
    if |needle| > |hay| then None
    else if OccursAt(hay, needle, 0) then Some(0)
    else
      match Find(hay[1..], needle)
      case None => None
      case Some(k) => Some(k + 1)
  }

  lemma {:induction false} FindIsFirst(hay: Bytes, needle: Bytes)
    ensures match Find(hay, needle)
      case Some(k) => OccursAt(hay, needle, k) && forall j: nat :: j < k ==> !OccursAt(hay, needle, j)
      case None => forall j: nat :: !OccursAt(hay, needle, j)
  {
    if |needle| <= |hay| && !OccursAt(hay, needle, 0) {
      FindIsFirst(hay[1..], needle);
      forall j: nat | j > 0
        ensures OccursAt(hay, needle, j) <==> OccursAt(hay[1..], needle, j - 1)
      {
        OccursInTail(hay, needle, j);
      }
    }
  }

  lemma FindIs(hay: Bytes, needle: Bytes, k: nat)
    requires OccursAt(hay, needle, k)
    requires forall j: nat :: j < k ==> !OccursAt(hay, needle, j)
    ensures Find(hay, needle) == Some(k)
  {
    FindIsFirst(hay, needle);
    var f := Find(hay, needle).value;
    assert !(f < k) && !(k < f);
  }

  ghost predicate FirstAt(hay: Bytes, needle: Bytes, k: nat) {
    OccursAt(hay, needle, k) && forall j: nat :: j < k ==> !OccursAt(hay, needle, j)
  }

  lemma FirstStable(a: Bytes, b: Bytes, needle: Bytes, k: nat)
    requires FirstAt(a, needle, k)
    requires k + |needle| <= |b| && a[..k + |needle|] == b[..k + |needle|]
    ensures FirstAt(b, needle, k)
  {
    OccursInPrefix(a, b, needle, k, k + |needle|);
    forall j: nat | j < k
      ensures !OccursAt(b, needle, j)
    {
      OccursInPrefix(a, b, needle, j, k + |needle|);
    }
  }

  /** The first occurrence depends only on the bytes up to its end. */
  lemma FindStable(a: Bytes, b: Bytes, needle: Bytes, k: nat)
    requires Find(a, needle) == Some(k)
    requires k + |needle| <= |b| && a[..k + |needle|] == b[..k + |needle|]
    ensures Find(b, needle) == Some(k)
  {
    FindIsFirst(a, needle);
    FirstStable(a, b, needle, k);
    FindIs(b, needle, k);
  }

  lemma OccursInPrefix(a: Bytes, b: Bytes, needle: Bytes, k: nat, n: nat)
    requires n <= |a| && n <= |b| && a[..n] == b[..n]
    requires k + |needle| <= n
    ensures OccursAt(a, needle, k) <==> OccursAt(b, needle, k)
  {
    SliceOfSlice(a, 0, n, k, k + |needle|);
    SliceOfSlice(b, 0, n, k, k + |needle|);
  }

  /** `pos` is the first position from `from` on where the needle occurs. */
  ghost predicate FirstFrom(s: Bytes, needle: Bytes, from: nat, pos: nat) {
    from <= pos && OccursAt(s, needle, pos) && forall j: nat :: from <= j < pos ==> !OccursAt(s, needle, j)
  }

  lemma OccursInRest(s: Bytes, needle: Bytes, n: nat, j: nat)
    requires n <= |s|
    ensures OccursAt(s[n..], needle, j) <==> OccursAt(s, needle, n + j)
  {
    if n + j + |needle| <= |s| { SliceOfSlice(s, n, |s|, j, j + |needle|); }
  }

  /** Searching a tail of a string is searching the string from there on. */
  lemma FindInTail(s: Bytes, needle: Bytes, n: nat, rel: nat)
    requires n <= |s|
    ensures Find(s[n..], needle) == Some(rel) <==> FirstFrom(s, needle, n, n + rel)
  {
    forall j: nat
      ensures OccursAt(s[n..], needle, j) <==> OccursAt(s, needle, n + j)
    {
      OccursInRest(s, needle, n, j);
    }
    if FirstFrom(s, needle, n, n + rel) { FindIs(s[n..], needle, rel); }
    if Find(s[n..], needle) == Some(rel) {
      FindIsFirst(s[n..], needle);
      forall j: nat | n <= j < n + rel
        ensures !OccursAt(s, needle, j)
      {
        assert !OccursAt(s[n..], needle, j - n);
      }
    }
  }

  lemma FirstFromStable(a: Bytes, b: Bytes, needle: Bytes, from: nat, pos: nat)
    requires FirstFrom(a, needle, from, pos) && a[..pos + |needle|] <= b
    ensures FirstFrom(b, needle, from, pos)
  {
    var n := pos + |needle|;
    assert a[..n] == b[..n];
    forall j: nat | j <= pos
      ensures OccursAt(a, needle, j) <==> OccursAt(b, needle, j)
    {
      OccursInPrefix(a, b, needle, j, n);
    }
  }

  // ---- splitting on a separator byte ----

  /** `str::split(sep)`: always at least one field. */
  function Split(s: Bytes, sep: byte): (fields: seq<Bytes>)
    ensures |fields| >= 1
    ensures forall i :: 0 <= i < |fields| ==> sep !in fields[i]
  {
    if s == [] then [[]]
    else if s[0] == sep then [[]] + Split(s[1..], sep)
    else
      var rest := Split(s[1..], sep);
      [[s[0]] + rest[0]] + rest[1..]
  }

  function Join(fields: seq<Bytes>, sep: byte): Bytes {
    if fields == [] then []
    else if |fields| == 1 then fields[0]
    else fields[0] + [sep] + Join(fields[1..], sep)
  }

  lemma {:induction false} SplitPlain(s: Bytes, sep: byte)
    requires sep !in s
    ensures Split(s, sep) == [s]
  {
    if s != [] {
      SplitPlain(s[1..], sep);
      assert s == [s[0]] + s[1..];
    }
  }

  lemma {:induction false} SplitAt(a: Bytes, b: Bytes, sep: byte)
    requires sep !in a
    ensures Split(a + [sep] + b, sep) == [a] + Split(b, sep)
  {
    var s := a + [sep] + b;
    if a == [] {
      assert s[1..] == b;
    } else {
      assert s[1..] == a[1..] + [sep] + b;
      SplitAt(a[1..], b, sep);
      var rest := Split(s[1..], sep);
      assert rest == [a[1..]] + Split(b, sep);
      assert rest[1..] == Split(b, sep);
      assert [s[0]] + rest[0] == a;
    }
  }

  /** Joining fields that do not contain the separator, then splitting, gives the fields back. */
  lemma {:induction false} SplitJoin(fields: seq<Bytes>, sep: byte)
    requires fields != []
    requires forall i :: 0 <= i < |fields| ==> sep !in fields[i]
    ensures Split(Join(fields, sep), sep) == fields
  {
    if |fields| == 1 {
      SplitPlain(fields[0], sep);
    } else {
      SplitJoin(fields[1..], sep);
      SplitAt(fields[0], Join(fields[1..], sep), sep);
      assert fields == [fields[0]] + fields[1..];
    }
  }

  lemma {:induction false} JoinSplit(s: Bytes, sep: byte)
    ensures Join(Split(s, sep), sep) == s
  {
    if s != [] {
      JoinSplit(s[1..], sep);
      var rest := Split(s[1..], sep);
      if s[0] == sep {
        assert Split(s, sep)[1..] == rest;
        assert s == [s[0]] + s[1..];
      } else {
        var fields := Split(s, sep);
        assert fields[1..] == rest[1..];
        assert s == [s[0]] + s[1..];
      }
    }
  }

  lemma SplitOf(c: byte, rest: Bytes, sep: byte)
    ensures Split([c] + rest, sep) ==
      if c == sep then [[]] + Split(rest, sep) else [[c] + Split(rest, sep)[0]] + Split(rest, sep)[1..]
  {
    assert ([c] + rest)[1..] == rest;
  }

  lemma LongerFirstField(c: byte, x: seq<Bytes>, y: seq<Bytes>)
    requires x != []
    ensures [[c] + (x + y)[0]] + (x + y)[1..] == ([[c] + x[0]] + x[1..]) + y
  {
    assert (x + y)[1..] == x[1..] + y;
  }

  /** Splitting at one separator and then the two sides is splitting at once. */
  lemma {:induction false} SplitBoth(a: Bytes, b: Bytes, sep: byte)
    ensures Split(a + [sep] + b, sep) == Split(a, sep) + Split(b, sep)
  {
    if a == [] {
      assert a + [sep] + b == [sep] + b;
      SplitOf(sep, b, sep);
    } else {
      var c, t := a[0], a[1..];
      assert a == [c] + t && a + [sep] + b == [c] + (t + [sep] + b);
      SplitBoth(t, b, sep);
      SplitOf(c, t, sep);
      SplitOf(c, t + [sep] + b, sep);
      LongerFirstField(c, Split(t, sep), Split(b, sep));
    }
  }

  /** `str::split_once(sep)`: what is before and behind the first separator. */
  function SplitOnce(s: Bytes, sep: byte): Option<(Bytes, Bytes)> {
    match Find(s, [sep])
    case None => None
    case Some(k) => Some((s[..k], s[k + 1..]))
  }

  lemma SplitOnceAt(a: Bytes, b: Bytes, sep: byte)
    requires sep !in a
    ensures SplitOnce(a + [sep] + b, sep) == Some((a, b))
  {
    var s := a + [sep] + b;
    assert s[|a|..|a| + 1] == [sep];
    forall j: nat | j < |a|
      ensures !OccursAt(s, [sep], j)
    {
      assert s[j..j + 1][0] == a[j];
    }
    FindIs(s, [sep], |a|);
    assert s[..|a|] == a && s[|a| + 1..] == b;
  }

  lemma SplitOnceIs(s: Bytes, sep: byte)
    requires SplitOnce(s, sep).Some?
    ensures var (a, b) := SplitOnce(s, sep).value; s == a + [sep] + b && sep !in a
  {
    FindIsFirst(s, [sep]);
    var k := Find(s, [sep]).value;
    assert s[k..k + 1][0] == sep;
    forall j | 0 <= j < k
      ensures s[j] != sep
    {
      assert !OccursAt(s, [sep], j);
      assert s[j..j + 1] == [s[j]];
    }
  }

  // ---- hexadecimal ----

  function HexDigit(d: nat): (c: byte)
    requires d < 16
    ensures (48 <= c <= 57) || (97 <= c <= 102)
  {
    if d < 10 then (48 + d) as byte else (87 + d) as byte
  }

  /** Value of an ASCII hexadecimal digit of either case. */
  function HexValue(c: byte): (d: Option<nat>)
    ensures d.Some? ==> d.value < 16
  {
    if 48 <= c <= 57 then Some(c as int - 48)
    else if 97 <= c <= 102 then Some(c as int - 87)
    else if 65 <= c <= 70 then Some(c as int - 55)
    else None
  }

  /** `hex::encode`: two lower-case digits a byte. */
  function Hex(b: Bytes): (h: Bytes)
    ensures |h| == 2 * |b|
    ensures forall i :: 0 <= i < |h| ==> 48 <= h[i] <= 57 || 97 <= h[i] <= 102
  {
    if b == [] then []
    else [HexDigit(b[0] as nat / 16), HexDigit(b[0] as nat % 16)] + Hex(b[1..])
  }

  /** The digits are those of the two alphabets. */
  lemma HexAlphabet(c: byte, d: nat)
    requires d < 16
    ensures HexDigit(d) as int == "0123456789abcdef"[d] as int
    ensures HexValue(c) == Some(d) <==>
      c as int == "0123456789abcdef"[d] as int || c as int == "0123456789ABCDEF"[d] as int
  {}

  /** The high half of each byte goes first. */
  lemma {:induction false} HexSpells(b: Bytes, i: nat)
    requires i < |b|
    ensures Hex(b)[2 * i] == HexDigit(b[i] as nat / 16) && Hex(b)[2 * i + 1] == HexDigit(b[i] as nat % 16)
  {
    if i > 0 {
      HexSpells(b[1..], i - 1);
      var first := [HexDigit(b[0] as nat / 16), HexDigit(b[0] as nat % 16)];
      assert Hex(b) == first + Hex(b[1..]);
      assert Hex(b)[2 * i] == Hex(b[1..])[2 * (i - 1)] && Hex(b)[2 * i + 1] == Hex(b[1..])[2 * (i - 1) + 1];
    }
  }

  /** `hex::decode`: fails on an odd length or on a byte that is not a digit. */
  function Unhex(h: Bytes): Option<Bytes> {
    if h == [] then Some([])
    else if |h| == 1 then None
    else
      match (HexValue(h[0]), HexValue(h[1]), Unhex(h[2..]))
      case (Some(hi), Some(lo), Some(rest)) => Some([(16 * hi + lo) as byte] + rest)
      case _ => None
  }

  lemma {:induction false} UnhexHex(b: Bytes)
    ensures Unhex(Hex(b)) == Some(b)
  {
    if b != [] {
      UnhexHex(b[1..]);
      assert Hex(b)[2..] == Hex(b[1..]);
      assert b == [b[0]] + b[1..];
    }
  }

  lemma HexInjective(a: Bytes, b: Bytes)
    requires Hex(a) == Hex(b)
    ensures a == b
  {
    UnhexHex(a);
    UnhexHex(b);
  }

  /** Decimal and hexadecimal are the two bases in use. */
  predicate IsBase(base: nat) {
    base == 10 || base == 16
  }

  function Shifted(n: nat, base: nat): (q: nat)
    requires IsBase(base)
    ensures n >= base ==> q < n
  {
    if base == 10 then n / 10 else n / 16
  }

  function LastDigit(n: nat, base: nat): (d: nat)
    requires IsBase(base)
    ensures d < base
    ensures base * Shifted(n, base) + d == n
  {
    if base == 10 then n % 10 else n % 16
  }

  /** `{:x}` and the like: the digits of a number in a base, without leading zeros. */
  function Digits(n: nat, base: nat): (d: seq<nat>)
    requires IsBase(base)
    ensures |d| >= 1
    ensures forall i :: 0 <= i < |d| ==> d[i] < base
    decreases n
  {
    if n < base then [n] else Digits(Shifted(n, base), base) + [LastDigit(n, base)]
  }

  function NumberOf(d: seq<nat>, base: nat): nat
    requires IsBase(base)
  {
    if d == [] then 0 else base * NumberOf(d[..|d| - 1], base) + d[|d| - 1]
  }

  lemma NumberOfSnoc(d: seq<nat>, x: nat, base: nat)
    requires IsBase(base)
    ensures NumberOf(d + [x], base) == base * NumberOf(d, base) + x
  {
    assert (d + [x])[..|d|] == d;
  }

  lemma {:induction false} NumberOfDigits(n: nat, base: nat)
    requires IsBase(base)
    ensures NumberOf(Digits(n, base), base) == n
    decreases n
  {
    if n < base {
      NumberOfSnoc([], n, base);
      assert [] + [n] == [n];
    } else {
      NumberOfDigits(Shifted(n, base), base);
      NumberOfSnoc(Digits(Shifted(n, base), base), LastDigit(n, base), base);
    }
  }

  lemma {:induction false} LeadingDigitCounts(d: seq<nat>, base: nat)
    requires IsBase(base) && d != [] && d[0] != 0
    ensures NumberOf(d, base) > 0
  {
    if |d| > 1 { LeadingDigitCounts(d[..|d| - 1], base); }
  }

  lemma ShiftedIs(q: nat, d: nat, base: nat)
    requires IsBase(base) && d < base
    ensures Shifted(base * q + d, base) == q && LastDigit(base * q + d, base) == d
  {}

  /** Printed numbers have no leading zeros, and there is only one way to write a number so. */
  lemma {:induction false} DigitsUnique(d: seq<nat>, base: nat)
    requires IsBase(base) && d != [] && forall i :: 0 <= i < |d| ==> d[i] < base
    ensures d == Digits(NumberOf(d, base), base) <==> (|d| > 1 ==> d[0] != 0)
  {
    if |d| == 1 {
      assert NumberOf(d[..0], base) == 0 && d == [d[0]];
    } else {
      var init, last := d[..|d| - 1], d[|d| - 1];
      var q := NumberOf(init, base);
      ShiftedIs(q, last, base);
      DigitsUnique(init, base);
      assert d == init + [last];
      if d[0] != 0 {
        LeadingDigitCounts(init, base);
      } else if q > 0 {
        assert Digits(NumberOf(d, base), base) == Digits(q, base) + [last];
      }
    }
  }

  function HexNumber(n: nat): (h: Bytes)
    ensures |h| >= 1
    ensures forall i :: 0 <= i < |h| ==> 48 <= h[i] <= 57 || 97 <= h[i] <= 102
  {
    var d := Digits(n, 16);
    seq(|d|, i requires 0 <= i < |d| => HexDigit(d[i]))
  }

  function Decimal(n: nat): (h: Bytes)
    ensures |h| >= 1
    ensures forall i :: 0 <= i < |h| ==> 48 <= h[i] <= 57
  {
    var d := Digits(n, 10);
    seq(|d|, i requires 0 <= i < |d| => (48 + d[i]) as byte)
  }

  /** A number without the plus sign that the parsers below let pass. */
  function Plain(s: Bytes): Bytes {
    if s != [] && s[0] == 43 then s[1..] else s
  }

  predicate AreDigits(t: Bytes, base: nat) {
    t != [] && forall i :: 0 <= i < |t| ==> IsDigit(t[i], base)
  }

  function DigitValues(t: Bytes): (d: seq<nat>)
    ensures |d| == |t|
  {
    seq(|t|, i requires 0 <= i < |t| => DigitValue(t[i]))
  }

  /** `from_str_radix` and `str::parse` for a 64-bit unsigned number: an optional `+`, then one or
      more digits, the value below 2^64. */
  function ParseNumber(s: Bytes, base: nat): (r: Option<nat>)
    requires IsBase(base)
    ensures r.Some? ==> r.value < 0x1_0000_0000_0000_0000
  {
    if !AreDigits(Plain(s), base) then None
    else
      var n := NumberOf(DigitValues(Plain(s)), base);
      if n < 0x1_0000_0000_0000_0000 then Some(n) else None
  }

  predicate IsDigit(c: byte, base: nat) {
    HexValue(c).Some? && HexValue(c).value < base
  }

  function DigitValue(c: byte): nat {
    if HexValue(c).Some? then HexValue(c).value else 0
  }

  lemma ParsePrintedDigits(s: Bytes, d: seq<nat>, base: nat)
    requires IsBase(base)
    requires |s| == |d| >= 1
    requires forall i :: 0 <= i < |d| ==> d[i] < base && HexValue(s[i]) == Some(d[i])
    requires NumberOf(d, base) < 0x1_0000_0000_0000_0000
    ensures ParseNumber(s, base) == Some(NumberOf(d, base))
  {
    assert HexValue(43).None? && Plain(s) == s;
    assert DigitValues(s) == d;
  }

  /** One or more hexadecimal digits of either case, of any value. */
  predicate IsHexNumeral(s: Bytes) {
    s != [] && forall i :: 0 <= i < |s| ==>
      var x := s[i] as char; '0' <= x <= '9' || 'a' <= x <= 'f' || 'A' <= x <= 'F'
  }

  function HexNumeral(s: Bytes): nat
    requires IsHexNumeral(s)
  {
    NumberOf(seq(|s|, i requires 0 <= i < |s| => HexDigitOf(s[i])), 16)
  }

  function HexDigitOf(c: byte): nat {
    if c <= 57 then (c as int - 48) % 16 else if c >= 97 then (c as int - 87) % 16 else (c as int - 55) % 16
  }

  /** What `from_str_radix` makes of a field: hexadecimal numerals below 2^64, with or without a plus sign. */
  lemma ParseHexIs(s: Bytes)
    ensures ParseNumber(s, 16)
      == if IsHexNumeral(Plain(s)) && HexNumeral(Plain(s)) < 0x1_0000_0000_0000_0000 then Some(HexNumeral(Plain(s)))
         else None
  {
    var t := Plain(s);
    forall i | 0 <= i < |t|
      ensures var x := t[i] as char;
        IsDigit(t[i], 16) <==> '0' <= x <= '9' || 'a' <= x <= 'f' || 'A' <= x <= 'F'
    {}
    assert AreDigits(t, 16) <==> IsHexNumeral(t);
    if IsHexNumeral(t) {
      assert DigitValues(t) == seq(|t|, i requires 0 <= i < |t| => HexDigitOf(t[i]));
    }
  }

  lemma PlainIs(s: Bytes)
    ensures Plain([43] + s) == s && (s != [] && s[0] as char != '+' ==> Plain(s) == s) && Plain([]) == []
  {
    assert ([43] + s)[1..] == s;
  }

  lemma HexDigitValue(d: nat)
    requires d < 16
    ensures HexValue(HexDigit(d)) == Some(d)
  {}

  lemma ParseHexNumber(n: nat)
    requires n < 0x1_0000_0000_0000_0000
    ensures ParseNumber(HexNumber(n), 16) == Some(n)
  {
    NumberOfDigits(n, 16);
    var d, s := Digits(n, 16), HexNumber(n);
    forall i | 0 <= i < |d|
      ensures HexValue(s[i]) == Some(d[i])
    {
      HexDigitValue(d[i]);
    }
    ParsePrintedDigits(s, d, 16);
  }
}
