/** String operations of the Kotlin and Java standard libraries that the core relies on:
    `isBlank`, `trim`, `contains(ignoreCase = true)`, `joinToString`, `String.hashCode`,
    and the order in which the store sorts names. */
module Text {

  /** Kotlin's `Char.isWhitespace`: Java's `Character.isWhitespace` or `Character.isSpaceChar`
      (the ASCII controls TAB to CR and FS to US, the space separators and the two Unicode
      line/paragraph separators). */
  predicate IsWhitespace(c: char)
  {
    || ('\t' <= c <= '\r')
    || ('\U{1C}' <= c <= ' ')
    || c == '\U{A0}' || c == '\U{1680}'
    || ('\U{2000}' <= c <= '\U{200A}')
    || c == '\U{2028}' || c == '\U{2029}' || c == '\U{202F}' || c == '\U{205F}' || c == '\U{3000}'
  }

  /** Kotlin's `isBlank`: empty or whitespace only. */
  predicate IsBlank(s: string)
  {
    forall i :: 0 <= i < |s| ==> IsWhitespace(s[i])
  }

  /** Number of leading whitespace characters. */
  function LeadingSpace(s: string): (n: nat)
    ensures n <= |s|
    ensures forall i :: 0 <= i < n ==> IsWhitespace(s[i])
    ensures n < |s| ==> !IsWhitespace(s[n])
  {
    if s == [] || !IsWhitespace(s[0]) then 0 else 1 + LeadingSpace(s[1..])
  }

  /** Number of trailing whitespace characters. */
  function TrailingSpace(s: string): (n: nat)
    ensures n <= |s|
    ensures forall i :: |s| - n <= i < |s| ==> IsWhitespace(s[i])
    ensures n < |s| ==> !IsWhitespace(s[|s| - 1 - n])
  {
    if s == [] || !IsWhitespace(s[|s| - 1]) then 0 else 1 + TrailingSpace(s[..|s| - 1])
  }

  /** Kotlin's `trim()`: `s` without its leading and trailing whitespace. */
  function Trim(s: string): (r: string)
    ensures r == [] <==> IsBlank(s)
    ensures r != [] ==> !IsWhitespace(r[0]) && !IsWhitespace(r[|r| - 1])
    ensures exists k :: 0 <= k <= |s| - |r| && s[k..k + |r|] == r && IsBlank(s[..k]) && IsBlank(s[k + |r|..])
  {
    var lo := LeadingSpace(s);
    if lo == |s| then
      assert IsBlank(s[..0]) && IsBlank(s[0..]);
      []
    else
      var hi := |s| - TrailingSpace(s);
      assert lo < hi;
      var r := s[lo..hi];
      assert IsBlank(s[..lo]) && IsBlank(s[hi..]);
      r
  }

  /** Trimming a string that has no whitespace at either end changes nothing. */
  lemma TrimOfTrimmed(s: string)
    requires s != [] ==> !IsWhitespace(s[0]) && !IsWhitespace(s[|s| - 1])
    ensures Trim(s) == s
  {
    if s != [] {
      assert LeadingSpace(s) == 0 && TrailingSpace(s) == 0;
    }
  }

  lemma TrimIdempotent(s: string)
    ensures Trim(Trim(s)) == Trim(s)
  {
    TrimOfTrimmed(Trim(s));
  }

  /** `q` occurs in `s` at position `i` when both are compared through `fold`. */
  predicate OccursAt(s: string, q: string, i: nat, fold: char -> char)
    requires i + |q| <= |s|
  {
    forall j :: 0 <= j < |q| ==> fold(s[i + j]) == fold(q[j])
  }

  /** Kotlin's `s.contains(q, ignoreCase = true)`, with the case-insensitive comparison of
      two characters abstracted as equality of their images under `fold`. */
  predicate ContainsFolded(s: string, q: string, fold: char -> char)
  {
    exists i: nat :: i + |q| <= |s| && OccursAt(s, q, i, fold)
  }

  /** Kotlin's `joinToString(sep)`. */
  function Join(parts: seq<string>, sep: string): (r: string)
    ensures parts == [] ==> r == []
    ensures |parts| == 1 ==> r == parts[0]
    ensures |parts| > 1 ==> |parts[0]| + |sep| <= |r| && r[..|parts[0]| + |sep|] == parts[0] + sep
  {
    if parts == [] then []
    else if |parts| == 1 then parts[0]
    else parts[0] + sep + Join(parts[1..], sep)
  }

  /** Appending a part appends the separator and that part: the parts follow in order. */
  lemma {:induction false} JoinSnoc(parts: seq<string>, x: string, sep: string)
    requires parts != []
    ensures Join(parts + [x], sep) == Join(parts, sep) + sep + x
  {
    if |parts| > 1 {
      JoinSnoc(parts[1..], x, sep);
      assert (parts + [x])[1..] == parts[1..] + [x];
    } else {
      assert (parts + [x])[1..] == [x];
    }
  }

  /** The joined length: every part once, and one separator between each two. */
  lemma {:induction false} JoinLength(parts: seq<string>, sep: string)
    requires parts != []
    ensures |Join(parts, sep)| == TotalLength(parts) + (|parts| - 1) * |sep|
  {
    if |parts| > 1 {
      JoinLength(parts[1..], sep);
    }
  }

  function TotalLength(parts: seq<string>): nat
  {
    if parts == [] then 0 else |parts[0]| + TotalLength(parts[1..])
  }

  /** The order `ORDER BY name ASC` uses: lexicographic comparison of code points
      (SQLite's BINARY collation compares UTF-8 bytes, which orders code points the same way). */
  predicate NameLe(a: string, b: string)
  {
    if a == [] then true
    else if b == [] then false
    else if a[0] != b[0] then a[0] < b[0]
    else NameLe(a[1..], b[1..])
  }

  lemma {:induction false} NameLeTotal(a: string, b: string)
    ensures NameLe(a, b) || NameLe(b, a)
  {
    if a != [] && b != [] && a[0] == b[0] {
      NameLeTotal(a[1..], b[1..]);
    }
  }

  lemma {:induction false} NameLeTransitive(a: string, b: string, c: string)
    requires NameLe(a, b) && NameLe(b, c)
    ensures NameLe(a, c)
  {
    if a != [] && b != [] && c != [] && a[0] == b[0] && b[0] == c[0] {
      NameLeTransitive(a[1..], b[1..], c[1..]);
    }
  }

  lemma {:induction false} NameLeAntisymmetric(a: string, b: string)
    requires NameLe(a, b) && NameLe(b, a)
    ensures a == b
  {
    if a != [] && b != [] {
      NameLeAntisymmetric(a[1..], b[1..]);
      assert a == [a[0]] + a[1..] && b == [b[0]] + b[1..];
    }
  }

  const TWO_32: int := 0x1_0000_0000
  const TWO_31: int := 0x8000_0000

  /** The unsigned 32-bit accumulator of Java's `String.hashCode`: h = 31 * h + c per character,
      wrapping at 2^32. */
  function HashAccumulator(s: string): (h: nat)
    ensures h < TWO_32
  {
    if s == [] then 0
    else (31 * HashAccumulator(s[..|s| - 1]) + s[|s| - 1] as int) % TWO_32
  }

  /** Java's `String.hashCode`, read back as a signed 32-bit `Int`. */
  function JavaHashCode(s: string): (h: int)
    ensures -TWO_31 <= h < TWO_31
    ensures (h - HashAccumulator(s)) % TWO_32 == 0
  {
    var u := HashAccumulator(s);
    if u < TWO_31 then u else u - TWO_32
  }
}
