/** String operations the backend and the widget rely on: whitespace trimming
    (Python's `str.strip()` and JavaScript's `String.prototype.trim()`, which
    differ only in their whitespace sets), splitting on a separator, the
    "stripped, non-empty, comma-separated entries" list both backend
    configuration values are parsed with, ASCII lower-casing, substring search
    and decimal rendering of status codes. */
module Text {

  /** The two runtimes whose trimming the model needs: Python's `str.strip()` and
      JavaScript's `String.prototype.trim()`. */
  datatype Runtime = Python | JavaScript

  /** The whitespace the runtime's trimming removes: Python's `str.isspace()` characters,
      and JavaScript's WhiteSpace and LineTerminator characters. */
  predicate IsSpace(c: char, rt: Runtime) {
    c == ' ' || ('\t' <= c <= '\r')
    || c == '\U{00A0}' || c == '\U{1680}' || ('\U{2000}' <= c <= '\U{200A}')
    || c == '\U{2028}' || c == '\U{2029}' || c == '\U{202F}' || c == '\U{205F}' || c == '\U{3000}'
    || (rt == Python && (('\U{001C}' <= c <= '\U{001F}') || c == '\U{0085}'))
    || (rt == JavaScript && c == '\U{FEFF}')
  }

  /** Neither end of `s` is a whitespace character. */
  predicate IsTrimmed(s: string, rt: Runtime) {
    s == [] || (!IsSpace(s[0], rt) && !IsSpace(s[|s| - 1], rt))
  }

  /** Every character of `s` is whitespace. */
  predicate AllWhitespace(s: string, rt: Runtime) {
    forall i :: 0 <= i < |s| ==> IsSpace(s[i], rt)
  }

  /** `s` without leading and trailing whitespace: the result has no whitespace at
      either end, is empty exactly when `s` is all whitespace, leaves an already
      trimmed string alone, and keeps only characters of `s`. */
  function Trim(s: string, rt: Runtime): (r: string)
    ensures IsTrimmed(r, rt)
    ensures r == [] <==> AllWhitespace(s, rt)
    ensures IsTrimmed(s, rt) ==> r == s
    ensures forall i :: 0 <= i < |r| ==> r[i] in s
    decreases |s|
  {
    if s != [] && IsSpace(s[0], rt) then
      var r := Trim(s[1..], rt);
      assert AllWhitespace(s[1..], rt) ==> AllWhitespace(s, rt) by {
        if AllWhitespace(s[1..], rt) {
          forall i | 0 <= i < |s| ensures IsSpace(s[i], rt) {
            if i > 0 { assert s[i] == s[1..][i - 1]; }
          }
        }
      }
      assert forall i :: 0 <= i < |r| ==> r[i] in s by {
        forall i | 0 <= i < |r| ensures r[i] in s {
          var j :| 0 <= j < |s[1..]| && s[1..][j] == r[i];
          assert s[j + 1] == r[i];
        }
      }
      r
    else if s != [] && IsSpace(s[|s| - 1], rt) then
      var r := Trim(s[..|s| - 1], rt);
      // The first character is not whitespace, so neither `s` nor what remains is blank.
      assert s[..|s| - 1][0] == s[0];
      assert forall i :: 0 <= i < |r| ==> r[i] in s by {
        forall i | 0 <= i < |r| ensures r[i] in s {
          var j :| 0 <= j < |s[..|s| - 1]| && s[..|s| - 1][j] == r[i];
          assert s[j] == r[i];
        }
      }
      r
    else
      s
  }

  /** The characters of `s` outside `s[i..j]` are all whitespace. */
  predicate WhitespaceOutside(s: string, i: nat, j: nat, rt: Runtime) {
    forall k :: 0 <= k < |s| && !(i <= k < j) ==> IsSpace(s[k], rt)
  }

  /** `Trim` removes exactly a whitespace prefix and a whitespace suffix: its result is a
      slice of `s` with only whitespace outside it. Together with `IsTrimmed` of the result
      this determines it. */
  lemma {:induction false} TrimIsSlice(s: string, rt: Runtime)
    ensures exists i, j :: 0 <= i <= j <= |s| && Trim(s, rt) == s[i..j] && WhitespaceOutside(s, i, j, rt)
    decreases |s|
  {
    if s != [] && IsSpace(s[0], rt) {
      TrimIsSlice(s[1..], rt);
      var i, j :| 0 <= i <= j <= |s[1..]| && Trim(s[1..], rt) == s[1..][i..j]
                  && WhitespaceOutside(s[1..], i, j, rt);
      TrimSliceFront(s, rt, i, j);
    } else if s != [] && IsSpace(s[|s| - 1], rt) {
      TrimIsSlice(s[..|s| - 1], rt);
      var i, j :| 0 <= i <= j <= |s[..|s| - 1]| && Trim(s[..|s| - 1], rt) == s[..|s| - 1][i..j]
                  && WhitespaceOutside(s[..|s| - 1], i, j, rt);
      TrimSliceBack(s, rt, i, j);
    } else {
      assert Trim(s, rt) == s[0..|s|] && WhitespaceOutside(s, 0, |s|, rt);
    }
  }

  /** When `s` starts with whitespace, the slice `Trim` keeps of `s[1..]`, shifted by one. */
  lemma TrimSliceFront(s: string, rt: Runtime, i: nat, j: nat)
    requires s != [] && IsSpace(s[0], rt)
    requires i <= j <= |s| - 1 && Trim(s[1..], rt) == s[1..][i..j] && WhitespaceOutside(s[1..], i, j, rt)
    ensures Trim(s, rt) == s[i + 1..j + 1] && WhitespaceOutside(s, i + 1, j + 1, rt)
  {
    var tail := s[1..];
    assert Trim(s, rt) == Trim(tail, rt);
    assert tail[i..j] == s[i + 1..j + 1];
    forall k | 0 <= k < |s| && !(i + 1 <= k < j + 1) ensures IsSpace(s[k], rt) {
      if k > 0 { assert s[k] == tail[k - 1]; }
    }
  }

  /** When `s` ends with whitespace and does not start with it, the slice `Trim` keeps of
      `s[..|s| - 1]`. */
  lemma TrimSliceBack(s: string, rt: Runtime, i: nat, j: nat)
    requires s != [] && !IsSpace(s[0], rt) && IsSpace(s[|s| - 1], rt)
    requires i <= j <= |s| - 1 && Trim(s[..|s| - 1], rt) == s[..|s| - 1][i..j]
    requires WhitespaceOutside(s[..|s| - 1], i, j, rt)
    ensures Trim(s, rt) == s[i..j] && WhitespaceOutside(s, i, j, rt)
  {
    var init := s[..|s| - 1];
    assert Trim(s, rt) == Trim(init, rt);
    assert init[i..j] == s[i..j];
    forall k | 0 <= k < |s| && !(i <= k < j) ensures IsSpace(s[k], rt) {
      if k < |init| { assert s[k] == init[k]; }
    }
  }

  lemma TrimIdempotent(s: string, rt: Runtime)
    ensures Trim(Trim(s, rt), rt) == Trim(s, rt)
  {
  }

  /** A string with a non-whitespace character in it trims to a non-empty string. */
  lemma TrimNonEmpty(s: string, rt: Runtime, i: nat)
    requires i < |s| && !IsSpace(s[i], rt)
    ensures Trim(s, rt) != []
  {
  }

  /** Python's `s.split(sep)`: the pieces between separators, one more piece than
      there are separators, none containing the separator. */
  function Split(s: string, sep: char): (parts: seq<string>)
    ensures |parts| >= 1
    ensures forall k :: 0 <= k < |parts| ==> sep !in parts[k]
  {
    if s == [] then [""]
    else
      var rest := Split(s[1..], sep);
      if s[0] == sep then [""] + rest else [[s[0]] + rest[0]] + rest[1..]
  }

  /** `sep.join(parts)`. */
  function Join(parts: seq<string>, sep: char): string
    requires |parts| >= 1
  {
    if |parts| == 1 then parts[0] else parts[0] + [sep] + Join(parts[1..], sep)
  }

  lemma {:induction false} JoinSplit(s: string, sep: char)
    ensures Join(Split(s, sep), sep) == s
  {
    if s != [] {
      JoinSplit(s[1..], sep);
      var rest := Split(s[1..], sep);
      if s[0] != sep {
        var parts := Split(s, sep);
        assert parts[1..] == rest[1..];
        if |rest| > 1 {
          assert rest == [rest[0]] + rest[1..];
        }
      }
    }
  }

  lemma {:induction false} SplitSingle(s: string, sep: char)
    requires sep !in s
    ensures Split(s, sep) == [s]
  {
    if s != [] {
      SplitSingle(s[1..], sep);
      assert [s[0]] + s[1..] == s;
    }
  }

  lemma {:induction false} SplitAtSeparator(x: string, sep: char, y: string)
    requires sep !in x
    ensures Split(x + [sep] + y, sep) == [x] + Split(y, sep)
  {
    if x != [] {
      assert (x + [sep] + y)[1..] == x[1..] + [sep] + y;
      SplitAtSeparator(x[1..], sep, y);
      assert [x[0]] + x[1..] == x;
    } else {
      assert (x + [sep] + y)[1..] == y;
    }
  }

  /** Splitting undoes joining when no piece holds the separator. */
  lemma {:induction false} SplitJoin(parts: seq<string>, sep: char)
    requires |parts| >= 1
    requires forall k :: 0 <= k < |parts| ==> sep !in parts[k]
    ensures Split(Join(parts, sep), sep) == parts
  {
    if |parts| == 1 {
      SplitSingle(parts[0], sep);
    } else {
      SplitJoin(parts[1..], sep);
      SplitAtSeparator(parts[0], sep, Join(parts[1..], sep));
    }
  }

  /** The pieces that are non-empty after stripping, stripped, in order. */
  function NonBlankEntries(parts: seq<string>): (r: seq<string>)
    ensures |r| <= |parts|
    ensures forall e :: e in r ==> e != "" && IsTrimmed(e, Python)
  {
    if parts == [] then []
    else
      var t := Trim(parts[0], Python);
      var rest := NonBlankEntries(parts[1..]);
      if t == "" then rest else [t] + rest
  }

  /** `[e.strip() for e in s.split(",") if e.strip()]`. */
  function CommaList(s: string): (r: seq<string>)
    ensures forall e :: e in r ==> e != "" && IsTrimmed(e, Python) && ',' !in e
  {
    var parts := Split(s, ',');
    NonBlankEntriesAvoid(parts, ',');
    NonBlankEntries(parts)
  }

  /** The kept entries are exactly the non-empty strips of the pieces. */
  lemma {:induction false} NonBlankEntriesMembers(parts: seq<string>)
    ensures forall e :: e in NonBlankEntries(parts) <==>
              e != "" && exists k :: 0 <= k < |parts| && e == Trim(parts[k], Python)
  {
    if parts != [] {
      NonBlankEntriesMembers(parts[1..]);
      forall e ensures e in NonBlankEntries(parts) <==>
                       e != "" && exists k :: 0 <= k < |parts| && e == Trim(parts[k], Python) {
        if e != "" && (exists k :: 0 <= k < |parts| && e == Trim(parts[k], Python)) {
          var k :| 0 <= k < |parts| && e == Trim(parts[k], Python);
          if k > 0 { assert parts[1..][k - 1] == parts[k]; }
        }
        if e in NonBlankEntries(parts[1..]) {
          var k :| 0 <= k < |parts[1..]| && e == Trim(parts[1..][k], Python);
          assert parts[k + 1] == parts[1..][k];
        }
      }
    }
  }

  /** The entries of two runs of pieces are the entries of the first followed by those of
      the second: no entry is dropped, added or moved. */
  lemma {:induction false} NonBlankEntriesConcat(a: seq<string>, b: seq<string>)
    ensures NonBlankEntries(a + b) == NonBlankEntries(a) + NonBlankEntries(b)
  {
    if a != [] {
      assert (a + b)[0] == a[0] && (a + b)[1..] == a[1..] + b;
      NonBlankEntriesConcat(a[1..], b);
    } else {
      assert a + b == b;
    }
  }

  /** A character in none of the parts is in none of the entries kept. */
  lemma {:induction false} NonBlankEntriesAvoid(parts: seq<string>, c: char)
    requires forall p :: p in parts ==> c !in p
    ensures forall e :: e in NonBlankEntries(parts) ==> c !in e
  {
    if parts != [] {
      assert parts[0] in parts;
      NonBlankEntriesAvoid(parts[1..], c);
      var t := Trim(parts[0], Python);
      forall i | 0 <= i < |t| ensures t[i] != c {
        assert t[i] in parts[0];
      }
    }
  }

  lemma {:induction false} NonBlankEntriesOfClean(parts: seq<string>)
    requires forall k :: 0 <= k < |parts| ==> parts[k] != "" && IsTrimmed(parts[k], Python)
    ensures NonBlankEntries(parts) == parts
  {
    if parts != [] {
      NonBlankEntriesOfClean(parts[1..]);
    }
  }

  /** Splitting a value at its first comma: its entries are those of the text before the
      comma followed by those of the rest. */
  lemma CommaListConcat(x: string, y: string)
    requires ',' !in x
    ensures CommaList(x + "," + y) == CommaList(x) + CommaList(y)
  {
    SplitAtSeparator(x, ',', y);
    SplitSingle(x, ',');
    NonBlankEntriesConcat([x], Split(y, ','));
  }

  /** Parsing comma-separated pieces gives their non-empty strips, in order. */
  lemma CommaListOfJoin(parts: seq<string>)
    requires |parts| >= 1
    requires forall k :: 0 <= k < |parts| ==> ',' !in parts[k]
    ensures CommaList(Join(parts, ',')) == NonBlankEntries(parts)
  {
    SplitJoin(parts, ',');
  }

  /** Parsing a comma-joined list of clean entries gives the entries back. */
  lemma CommaListJoin(entries: seq<string>)
    requires |entries| >= 1
    requires forall k :: 0 <= k < |entries| ==>
               entries[k] != "" && IsTrimmed(entries[k], Python) && ',' !in entries[k]
    ensures CommaList(Join(entries, ',')) == entries
  {
    CommaListOfJoin(entries);
    NonBlankEntriesOfClean(entries);
  }

  /** A value without commas is a single entry, stripped, or none when it is blank. */
  lemma CommaListSingle(s: string)
    requires ',' !in s
    ensures CommaList(s) == if AllWhitespace(s, Python) then [] else [Trim(s, Python)]
  {
    SplitSingle(s, ',');
    assert [s][1..] == [];
    assert NonBlankEntries([s]) == if Trim(s, Python) == "" then [] else [Trim(s, Python)] + [];
  }

  /** ASCII lower-casing of one character. */
  function LowerChar(c: char): char {
    if IsUpper(c) then (c as int + 32) as char else c
  }

  predicate IsUpper(c: char) {
    'A' <= c <= 'Z'
  }

  /** ASCII lower-casing of a string: no upper-case ASCII letter is left, each one becomes
      the letter 32 code points above it, and every other character stays where it was. */
  function Lower(s: string): (r: string)
    ensures |r| == |s|
    ensures forall i :: 0 <= i < |r| ==> !IsUpper(r[i])
    ensures forall i :: 0 <= i < |s| && !IsUpper(s[i]) ==> r[i] == s[i]
    ensures forall i :: 0 <= i < |s| && IsUpper(s[i]) ==> r[i] as int == s[i] as int + 32
  {
    seq(|s|, i requires 0 <= i < |s| => LowerChar(s[i]))
  }

  /** Python's `needle in hay` for strings. */
  predicate Contains(hay: string, needle: string)
    decreases |hay|
  {
    |needle| <= |hay| && (hay[..|needle|] == needle || (hay != [] && Contains(hay[1..], needle)))
  }

  /** No `n` of `h` is directly followed by an `o`. */
  predicate NoNoPair(h: string) {
    forall k :: 0 <= k < |h| - 1 ==> !(h[k] == 'n' && h[k + 1] == 'o')
  }

  lemma NoNoPairConcat(a: string, b: string)
    requires NoNoPair(a) && NoNoPair(b) && (a == [] || a[|a| - 1] != 'n')
    ensures NoNoPair(a + b)
  {
    var h := a + b;
    forall k | 0 <= k < |h| - 1 ensures !(h[k] == 'n' && h[k + 1] == 'o') {
      if k + 1 < |a| {
        assert h[k] == a[k] && h[k + 1] == a[k + 1];
      } else if k + 1 == |a| {
        assert h[k] == a[|a| - 1];
      } else {
        assert h[k] == b[k - |a|] && h[k + 1] == b[k + 1 - |a|];
      }
    }
  }

  /** A string with no `n` or `N` lower-cases to one without the pair "no". */
  lemma NoNoPairWithoutN(w: string)
    requires 'n' !in w && 'N' !in w
    ensures NoNoPair(Lower(w))
  {
    var l := Lower(w);
    forall k | 0 <= k < |l| - 1 ensures l[k] != 'n' {
      assert w[k] in w;
    }
  }

  lemma LowerJoinHasNoNoPair(head: string, tail: string)
    requires NoNoPair(Lower(head)) && head != [] && Lower(head)[|head| - 1] != 'n'
    requires 'n' !in tail && 'N' !in tail && tail != [] && tail[|tail| - 1] == ' '
    ensures var l := Lower(head + tail); NoNoPair(l) && l != [] && l[|l| - 1] != 'n'
  {
    NoNoPairWithoutN(tail);
    LowerConcat(head, tail);
    NoNoPairConcat(Lower(head), Lower(tail));
  }

  /** A string without the pair "no" contains no string that starts with "no". */
  lemma {:induction false} NoNoPairExcludes(hay: string, needle: string)
    requires NoNoPair(hay)
    requires |needle| >= 2 && needle[0] == 'n' && needle[1] == 'o'
    ensures !Contains(hay, needle)
    decreases |hay|
  {
    if |needle| <= |hay| {
      assert hay[..|needle|] != needle by {
        assert !(hay[0] == 'n' && hay[1] == 'o');
        assert hay[..|needle|][0] == hay[0] && hay[..|needle|][1] == hay[1];
      }
      if hay != [] {
        NoNoPairExcludes(hay[1..], needle);
      }
    }
  }

  predicate IsDigit(c: char) {
    '0' <= c <= '9'
  }

  function DigitChar(d: nat): (c: char)
    requires d < 10
    ensures IsDigit(c)
  {
    ('0' as int + d) as char
  }

  /** Decimal rendering of a number (Python's `str(n)`, JavaScript's `${n}`): digits only,
      no leading zero. */
  function NatToString(n: nat): (s: string)
    ensures |s| >= 1
    ensures forall i :: 0 <= i < |s| ==> IsDigit(s[i])
    ensures s[0] == '0' ==> n == 0
  {
    if n < 10 then [DigitChar(n)] else NatToString(n / 10) + [DigitChar(n % 10)]
  }

  /** The value of a string of decimal digits. */
  function ParseNat(s: string): nat
    requires forall i :: 0 <= i < |s| ==> IsDigit(s[i])
  {
    if s == [] then 0
    else
      assert IsDigit(s[|s| - 1]);
      ParseNat(s[..|s| - 1]) * 10 + (s[|s| - 1] as int - '0' as int)
  }

  lemma {:induction false} ParseNatToString(n: nat)
    ensures ParseNat(NatToString(n)) == n
  {
    if n >= 10 {
      ParseNatToString(n / 10);
      var s := NatToString(n);
      assert s[..|s| - 1] == NatToString(n / 10);
    }
  }

  /** A lower-cased string of digits is itself. */
  lemma LowerDigits(s: string)
    requires forall i :: 0 <= i < |s| ==> IsDigit(s[i])
    ensures Lower(s) == s && NoNoPair(s)
  {
  }

  /** Lower-casing twice is lower-casing once. */
  lemma LowerIdempotent(s: string)
    ensures Lower(Lower(s)) == Lower(s)
  {
  }

  lemma LowerConcat(a: string, b: string)
    ensures Lower(a + b) == Lower(a) + Lower(b)
  {
  }
}
