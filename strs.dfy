/** Text helpers shared by the C++ profiler model and the Python helpers of ppcgrader:
    decimal integer text (C++ stream output and Python int()), Python's str.split,
    str.join, str.strip and str.rstrip for a single separator or character set,
    and the lexicographic order std::map and Python's sorted() use on strings. */
module Strs {

  // ---------------------------------------------------------------------------
  // Decimal integers
  // ---------------------------------------------------------------------------

  predicate IsDigit(c: char) { '0' <= c <= '9' }

  function DigitChar(d: nat): (c: char)
    requires d < 10
    ensures IsDigit(c)
  {
    (('0' as int) + d) as char
  }

  function DigitValue(c: char): (d: nat)
    requires IsDigit(c)
    ensures d < 10
  {
    (c as int) - ('0' as int)
  }

  /** Decimal digits of a natural number, most significant first, no leading zeros. */
  function NatText(n: nat): (s: string)
    ensures |s| >= 1
    ensures forall i :: 0 <= i < |s| ==> IsDigit(s[i])
    decreases n
  {
    if n < 10 then [DigitChar(n)] else NatText(n / 10) + [DigitChar(n % 10)]
  }

  /** Decimal text of an integer, as `operator<<` on an integer and Python's str() write it. */
  function IntText(v: int): string
  {
    if v < 0 then "-" + NatText(-v) else NatText(v)
  }

  predicate AllDigits(s: string)
  {
    forall i :: 0 <= i < |s| ==> IsDigit(s[i])
  }

  function DigitsValue(s: string): nat
    requires AllDigits(s)
    decreases |s|
  {
    if s == [] then 0 else 10 * DigitsValue(s[..|s| - 1]) + DigitValue(s[|s| - 1])
  }

  /** Python's int() on a token: an optional sign followed by at least one digit.
      Anything else is a ValueError, modelled as None. */
  function ParseInt(s: string): (r: Option<int>)
    ensures r.Some? ==> |s| >= 1
    ensures AllDigits(s) && s != [] ==> r == Some(DigitsValue(s))
  {
    if |s| >= 2 && s[0] == '-' && AllDigits(s[1..]) then Some(0 - DigitsValue(s[1..]))
    else if |s| >= 2 && s[0] == '+' && AllDigits(s[1..]) then Some(DigitsValue(s[1..]))
    else if |s| >= 1 && AllDigits(s) then Some(DigitsValue(s))
    else None
  }

  datatype Option<T> = None | Some(value: T)

  lemma {:induction false} NatTextValue(n: nat)
    ensures AllDigits(NatText(n)) && DigitsValue(NatText(n)) == n
  {
    var s := NatText(n);
    if n < 10 {
      assert s[..|s| - 1] == [];
    } else {
      NatTextValue(n / 10);
      assert s[..|s| - 1] == NatText(n / 10);
    }
  }

  /** Reading back the decimal text of any integer gives that integer. */
  lemma IntTextRoundTrip(v: int)
    ensures ParseInt(IntText(v)) == Some(v)
  {
    if v < 0 {
      var t := NatText(-v);
      NatTextValue(-v);
      var s := IntText(v);
      assert s[0] == '-' && s[1..] == t;
      assert ParseInt(s) == Some(0 - DigitsValue(t));
    } else {
      NatTextValue(v);
    }
  }

  /** Decimal integer text never holds a separator the parsers split on. */
  lemma IntTextChars(v: int)
    ensures |IntText(v)| >= 1
    ensures forall i :: 0 <= i < |IntText(v)| ==> IsDigit(IntText(v)[i]) || IntText(v)[i] == '-'
  {
  }

  // ---------------------------------------------------------------------------
  // Prefixes, split, join
  // ---------------------------------------------------------------------------

  predicate StartsWith(s: string, p: string)
  {
    |p| <= |s| && s[..|p|] == p
  }

  predicate EndsWith(s: string, t: string)
  {
    |t| <= |s| && s[|s| - |t|..] == t
  }

  /** Python's s.split(sep) for a one-character separator: never empty, one piece more than separators. */
  function Split(s: string, sep: char): (r: seq<string>)
    ensures |r| >= 1
    ensures forall i :: 0 <= i < |r| ==> sep !in r[i]
    decreases |s|
  {
    if s == [] then [""]
    else
      var rest := Split(s[1..], sep);
      if s[0] == sep then [""] + rest else [[s[0]] + rest[0]] + rest[1..]
  }

  /** Python's sep.join(pieces). */
  function Join(pieces: seq<string>, sep: string): string
    decreases |pieces|
  {
    if pieces == [] then ""
    else if |pieces| == 1 then pieces[0]
    else pieces[0] + sep + Join(pieces[1..], sep)
  }

  lemma {:induction false} SplitPrefix(piece: string, s: string, sep: char)
    requires sep !in piece
    ensures Split(piece + s, sep)[0] == piece + Split(s, sep)[0]
    ensures Split(piece + s, sep)[1..] == Split(s, sep)[1..]
    decreases |piece|
  {
    if piece == [] {
      assert piece + s == s;
    } else {
      SplitPrefix(piece[1..], s, sep);
      assert (piece + s)[1..] == piece[1..] + s;
      assert (piece + s)[0] == piece[0];
      assert piece == [piece[0]] + piece[1..];
    }
  }

  /** Splitting a joined list gives the list back when no piece holds the separator. */
  lemma {:induction false} SplitJoin(pieces: seq<string>, sep: char)
    requires |pieces| >= 1
    requires forall i :: 0 <= i < |pieces| ==> sep !in pieces[i]
    ensures Split(Join(pieces, [sep]), sep) == pieces
    decreases |pieces|
  {
    if |pieces| == 1 {
      SplitPrefix(pieces[0], "", sep);
      assert pieces[0] + "" == pieces[0];
      assert Split("", sep) == [""];
    } else {
      var tail := Join(pieces[1..], [sep]);
      SplitJoin(pieces[1..], sep);
      SplitPrefix(pieces[0], [sep] + tail, sep);
      assert ([sep] + tail)[1..] == tail;
      assert Split([sep] + tail, sep) == [""] + Split(tail, sep);
      assert Join(pieces, [sep]) == pieces[0] + ([sep] + tail);
      var r := Split(Join(pieces, [sep]), sep);
      assert r[0] == pieces[0] + "" == pieces[0];
      assert r == [r[0]] + r[1..];
      assert pieces == [pieces[0]] + pieces[1..];
    }
  }

  // ---------------------------------------------------------------------------
  // strip / rstrip
  // ---------------------------------------------------------------------------

  /** Python's s.lstrip(chars). */
  function LStrip(s: string, chars: set<char>): (r: string)
    ensures |r| <= |s| && r == s[|s| - |r|..]
    ensures r == [] || r[0] !in chars
    decreases |s|
  {
    if s != [] && s[0] in chars then LStrip(s[1..], chars) else s
  }

  /** Python's s.rstrip(chars). */
  function RStrip(s: string, chars: set<char>): (r: string)
    ensures |r| <= |s| && r == s[..|r|]
    ensures r == [] || r[|r| - 1] !in chars
    ensures forall i :: |r| <= i < |s| ==> s[i] in chars
    decreases |s|
  {
    if s != [] && s[|s| - 1] in chars then RStrip(s[..|s| - 1], chars) else s
  }

  /** Python's s.strip(chars). */
  function Strip(s: string, chars: set<char>): string
  {
    RStrip(LStrip(s, chars), chars)
  }

  /** The ASCII white space of C's isspace, which is also what Python's
      argument-less str.strip() and int() skip among the
      characters the model deals with; the separators '\x1c' to '\x1f' and
      the non-ASCII spaces Python also skips are left out. */
  const Whitespace: set<char> := {' ', '\t', '\n', '\r', '\U{000B}', '\U{000C}'}

  // ---------------------------------------------------------------------------
  // Lexicographic order (std::string operator< and Python's str <)
  // ---------------------------------------------------------------------------

  predicate LexLess(a: string, b: string)
    decreases |a|
  {
    if a == [] then b != []
    else if b == [] then false
    else if a[0] != b[0] then a[0] < b[0]
    else LexLess(a[1..], b[1..])
  }

  predicate LexLessEq(a: string, b: string) { a == b || LexLess(a, b) }

  lemma {:induction false} LexTotal(a: string, b: string)
    ensures LexLess(a, b) || a == b || LexLess(b, a)
    decreases |a|
  {
    if a != [] && b != [] && a[0] == b[0] {
      LexTotal(a[1..], b[1..]);
      if a[1..] == b[1..] {
        assert a == [a[0]] + a[1..] && b == [b[0]] + b[1..];
      }
    }
  }

  lemma {:induction false} LexIrreflexive(a: string)
    ensures !LexLess(a, a)
    decreases |a|
  {
    if a != [] { LexIrreflexive(a[1..]); }
  }

  lemma {:induction false} LexTransitive(a: string, b: string, c: string)
    requires LexLess(a, b) && LexLess(b, c)
    ensures LexLess(a, c)
    decreases |a|
  {
    if a != [] && b != [] && c != [] && a[0] == b[0] && b[0] == c[0] {
      LexTransitive(a[1..], b[1..], c[1..]);
    }
  }

  predicate SortedStrings(s: seq<string>)
  {
    forall i, j :: 0 <= i < j < |s| ==> LexLessEq(s[i], s[j])
  }

  function Insert(x: string, s: seq<string>): (r: seq<string>)
    requires SortedStrings(s)
    ensures multiset(r) == multiset(s) + multiset{x}
    ensures SortedStrings(r)
    decreases |s|
  {
    if s == [] then [x]
    else if LexLessEq(x, s[0]) then
      assert forall j :: 0 <= j < |s| ==> LexLessEq(x, s[j]) by {
        forall j | 0 <= j < |s| ensures LexLessEq(x, s[j]) {
          if x != s[0] && s[0] != s[j] { LexTransitive(x, s[0], s[j]); }
        }
      }
      [x] + s
    else
      var rest := Insert(x, s[1..]);
      LexTotal(x, s[0]);
      assert forall j :: 0 <= j < |rest| ==> LexLessEq(s[0], rest[j]) by {
        forall j | 0 <= j < |rest| ensures LexLessEq(s[0], rest[j]) {
          assert rest[j] in multiset(rest);
          assert rest[j] in multiset(s[1..]) || rest[j] == x;
          if rest[j] != x {
            var k :| 0 <= k < |s[1..]| && s[1..][k] == rest[j];
            assert s[k + 1] == rest[j];
          }
        }
      }
      assert s == [s[0]] + s[1..];
      [s[0]] + rest
  }

  /** Python's sorted() on a list of strings: the same strings in ascending order. */
  function SortStrings(s: seq<string>): (r: seq<string>)
    ensures multiset(r) == multiset(s)
    ensures SortedStrings(r)
    decreases |s|
  {
    if s == [] then []
    else
      assert s == [s[0]] + s[1..];
      Insert(s[0], SortStrings(s[1..]))
  }

  predicate IsLeast(m: string, keys: set<string>)
  {
    m in keys && forall k :: k in keys ==> LexLessEq(m, k)
  }

  lemma LeastAdd(m: string, rest: set<string>, x: string)
    requires IsLeast(m, rest)
    ensures IsLeast(if LexLess(x, m) then x else m, rest + {x})
  {
    LexTotal(m, x);
    if LexLess(x, m) {
      forall k | k in rest ensures LexLessEq(x, k) {
        if k != m {
          LexTransitive(x, m, k);
        }
      }
    }
  }

  /** The least string of a finite non-empty set: where std::map iteration starts. */
  lemma {:induction false} LeastExists(keys: set<string>)
    requires keys != {}
    ensures exists m :: IsLeast(m, keys)
    decreases |keys|
  {
    var x :| x in keys;
    if keys == {x} {
      assert IsLeast(x, keys);
    } else {
      LeastExists(keys - {x});
      var m :| IsLeast(m, keys - {x});
      LeastAdd(m, keys - {x}, x);
      assert keys - {x} + {x} == keys;
    }
  }

  lemma LeastUnique(keys: set<string>)
    ensures forall a, b :: IsLeast(a, keys) && IsLeast(b, keys) ==> a == b
  {
    forall a, b | IsLeast(a, keys) && IsLeast(b, keys) ensures a == b {
      if a != b {
        LexTransitive(a, b, a);
        LexIrreflexive(a);
      }
    }
  }

  /** The keys of a std::map in iteration order: ascending, each once. */
  function SortedKeys(keys: set<string>): (r: seq<string>)
    ensures |r| == |keys|
    ensures forall k :: k in keys <==> k in r
    ensures forall i, j :: 0 <= i < j < |r| ==> LexLess(r[i], r[j])
    decreases |keys|
  {
    if keys == {} then []
    else
      LeastExists(keys);
      LeastUnique(keys);
      var m :| IsLeast(m, keys);
      var rest := SortedKeys(keys - {m});
      assert forall j :: 0 <= j < |rest| ==> LexLess(m, rest[j]) by {
        forall j | 0 <= j < |rest| ensures LexLess(m, rest[j]) {
          assert rest[j] in keys - {m};
        }
      }
      ConsAscending(m, rest);
      [m] + rest
  }

  /** A string below every element of an ascending list extends it in front. */
  lemma ConsAscending(m: string, rest: seq<string>)
    requires forall j :: 0 <= j < |rest| ==> LexLess(m, rest[j])
    requires forall i, j :: 0 <= i < j < |rest| ==> LexLess(rest[i], rest[j])
    ensures forall i, j :: 0 <= i < j < |[m] + rest| ==> LexLess(([m] + rest)[i], ([m] + rest)[j])
  {
    var r := [m] + rest;
    forall i, j | 0 <= i < j < |r| ensures LexLess(r[i], r[j]) {
      if i == 0 {
        assert r[j] == rest[j - 1];
      } else {
        assert r[i] == rest[i - 1] && r[j] == rest[j - 1];
      }
    }
  }

  // ---------------------------------------------------------------------------
  // Occurrences and Python's int()
  // ---------------------------------------------------------------------------

  /** `t` occurs in `s` at position `k`. */
  predicate OccursAt(t: string, s: string, k: int)
  {
    0 <= k && k + |t| <= |s| && s[k..k + |t|] == t
  }

  lemma OccursWithin(t: string, m: string, k: int, left: string, right: string)
    requires OccursAt(t, m, k)
    ensures OccursAt(t, left + m + right, |left| + k)
  {
    assert (left + m + right)[|left| + k..|left| + k + |t|] == m[k..k + |t|];
  }

  /** Every piece of a joined list occurs in the joined text. */
  lemma {:induction false} JoinHasPiece(pieces: seq<string>, sep: string, i: nat) returns (k: int)
    requires i < |pieces|
    ensures OccursAt(pieces[i], Join(pieces, sep), k)
    decreases |pieces|
  {
    if |pieces| == 1 {
      k := 0;
      assert Join(pieces, sep)[0..|pieces[0]|] == pieces[0];
    } else if i == 0 {
      k := 0;
      assert Join(pieces, sep) == pieces[0] + (sep + Join(pieces[1..], sep));
    } else {
      var k' := JoinHasPiece(pieces[1..], sep, i - 1);
      OccursWithin(pieces[i], Join(pieces[1..], sep), k', pieces[0] + sep, "");
      assert pieces[0] + sep + Join(pieces[1..], sep) + "" == Join(pieces, sep);
      k := |pieces[0] + sep| + k';
    }
  }

  /** Python's int() on text: surrounding white space is ignored. */
  function PyInt(s: string): Option<int>
  {
    ParseInt(Strip(s, Whitespace))
  }
}
