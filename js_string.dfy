/** The JavaScript string operations the upload page relies on: `toLowerCase`,
    `endsWith`, `split` and the decimal rendering of a number in a template
    literal. A string is a `seq<char>`; a Dafny `char` is a Unicode scalar value,
    not a UTF-16 code unit as in JavaScript, so a character outside the Basic
    Multilingual Plane is one `char` here and two code units there. The page
    only splits at '.' and compares ASCII suffixes, where the two agree. */
module JsString {

  /** `toLowerCase` on one character, for the letters 'A' to 'Z'. */
  function LowerChar(c: char): (d: char)
    ensures ('A' <= c <= 'Z') <==> d != c
    ensures !('A' <= d <= 'Z')
    ensures 'A' <= c <= 'Z' ==> d as int == c as int + 32
  {
    if 'A' <= c <= 'Z' then (c as int - 'A' as int + 'a' as int) as char else c
  }

  /** `s.toLowerCase()`: every character lower-cased in place. */
  function Lower(s: string): (r: string)
    ensures |r| == |s|
    ensures forall i :: 0 <= i < |s| ==> r[i] == LowerChar(s[i])
  {
    if s == [] then [] else [LowerChar(s[0])] + Lower(s[1..])
  }

  /** Lower-casing twice is lower-casing once. */
  lemma LowerIdempotent(s: string)
    ensures Lower(Lower(s)) == Lower(s)
  {
  }

  /** Lower-casing works character by character, so it distributes over
      concatenation. */
  lemma {:induction false} LowerAppend(a: string, b: string)
    ensures Lower(a + b) == Lower(a) + Lower(b)
    decreases |a|
  {
    if a == [] {
      assert a + b == b;
    } else {
      assert (a + b)[1..] == a[1..] + b;
      LowerAppend(a[1..], b);
    }
  }

  /** Lower-casing neither adds nor removes a '.', '/' or any other non-letter. */
  lemma LowerKeepsNonLetters(s: string, c: char)
    requires !('A' <= c <= 'Z') && !('a' <= c <= 'z')
    ensures c in Lower(s) <==> c in s
  {
    if c in s {
      var i :| 0 <= i < |s| && s[i] == c;
      assert Lower(s)[i] == c;
    }
    if c in Lower(s) {
      var i :| 0 <= i < |s| && Lower(s)[i] == c;
      assert s[i] == c;
    }
  }

  /** `s.endsWith(suffix)`. */
  predicate EndsWith(s: string, suffix: string)
  {
    |suffix| <= |s| && s[|s| - |suffix|..] == suffix
  }

  /** `s.startsWith(prefix)`. */
  predicate StartsWith(s: string, prefix: string)
  {
    |prefix| <= |s| && s[..|prefix|] == prefix
  }

  /** The last element of a non-empty sequence (what `pop()` returns). */
  function Last<T>(s: seq<T>): T
    requires |s| > 0
  {
    s[|s| - 1]
  }

  /** `s.split(sep)` for a one-character separator: the pieces of `s` between
      consecutive separators, in order, empty pieces included (`"a..b"` gives
      `["a", "", "b"]`); there is one more segment than separators. */
  function Split(s: string, sep: char): (parts: seq<string>)
    ensures |parts| >= 1
    ensures forall i :: 0 <= i < |parts| ==> sep !in parts[i]
    decreases |s|
  {
    if s == [] then [[]]
    else
      var init := Split(s[..|s| - 1], sep);
      var c := s[|s| - 1];
      if c == sep then init + [[]]
      else init[..|init| - 1] + [Last(init) + [c]]
  }

  /** `parts.join(sep)`, the inverse of `Split`. */
  function Join(parts: seq<string>, sep: char): (s: string)
    requires |parts| >= 1
    decreases |parts|
  {
    if |parts| == 1 then parts[0]
    else Join(parts[..|parts| - 1], sep) + [sep] + Last(parts)
  }

  /** Joining the segments of `s` gives back `s`. */
  lemma {:induction false} JoinSplit(s: string, sep: char)
    ensures Join(Split(s, sep), sep) == s
    decreases |s|
  {
    if s != [] {
      var pre, c := s[..|s| - 1], s[|s| - 1];
      assert s == pre + [c];
      var init := Split(pre, sep);
      JoinSplit(pre, sep);
      if c == sep {
        assert Split(s, sep) == init + [[]];
        assert (init + [[]])[..|init|] == init;
      } else {
        var parts := init[..|init| - 1] + [Last(init) + [c]];
        assert Split(s, sep) == parts;
        if |init| > 1 {
          assert parts[..|parts| - 1] == init[..|init| - 1];
          assert Join(init, sep) == Join(init[..|init| - 1], sep) + [sep] + Last(init);
        }
      }
    }
  }

  /** Appending a separator and a separator-free segment adds exactly that segment. */
  lemma {:induction false} SplitAppendSegment(x: string, b: string, sep: char)
    requires sep !in b
    ensures Split(x + [sep] + b, sep) == Split(x, sep) + [b]
    decreases |b|
  {
    var s := x + [sep] + b;
    if b == [] {
      assert s == x + [sep];
      assert s[..|s| - 1] == x;
    } else {
      var b', c := b[..|b| - 1], b[|b| - 1];
      assert b == b' + [c];
      assert s[..|s| - 1] == x + [sep] + b';
      SplitAppendSegment(x, b', sep);
      var init := Split(x + [sep] + b', sep);
      assert init[..|init| - 1] == Split(x, sep);
    }
  }

  /** Splitting the join of separator-free segments gives back the segments. */
  lemma {:induction false} SplitJoin(parts: seq<string>, sep: char)
    requires |parts| >= 1
    requires forall i :: 0 <= i < |parts| ==> sep !in parts[i]
    ensures Split(Join(parts, sep), sep) == parts
    decreases |parts|
  {
    if |parts| == 1 {
      SplitOfSeparatorFree(parts[0], sep);
    } else {
      var init := parts[..|parts| - 1];
      SplitJoin(init, sep);
      SplitAppendSegment(Join(init, sep), Last(parts), sep);
      assert init + [Last(parts)] == parts;
    }
  }

  /** A string without the separator is a single segment. */
  lemma {:induction false} SplitOfSeparatorFree(s: string, sep: char)
    requires sep !in s
    ensures Split(s, sep) == [s]
    decreases |s|
  {
    if s != [] {
      var pre := s[..|s| - 1];
      assert sep !in pre by {
        forall i | 0 <= i < |pre| ensures pre[i] != sep { assert pre[i] == s[i]; }
      }
      SplitOfSeparatorFree(pre, sep);
      assert s == pre + [s[|s| - 1]];
    }
  }

  /** The last segment of `s` is the text after its last separator. */
  lemma {:induction false} LastSegmentIsAfterLastSeparator(s: string, sep: char)
    ensures IsLastSegment(s, sep, Last(Split(s, sep)))
    decreases |s|
  {
    if s != [] {
      var pre, c := s[..|s| - 1], s[|s| - 1];
      assert s == pre + [c];
      LastSegmentIsAfterLastSeparator(pre, sep);
      LastSegmentSnoc(pre, c, sep);
    }
  }

  /** `seg` is the text of `s` after its last separator: it holds no
      separator, it is a suffix of `s`, and it is either all of `s` (when `s`
      holds no separator) or is preceded by a separator. */
  predicate IsLastSegment(s: string, sep: char, seg: string)
  {
    sep !in seg && EndsWith(s, seg) &&
    (if sep in s then |seg| < |s| && s[|s| - |seg| - 1] == sep else seg == s)
  }

  lemma LastSegmentSnoc(pre: string, c: char, sep: char)
    requires IsLastSegment(pre, sep, Last(Split(pre, sep)))
    ensures IsLastSegment(pre + [c], sep, Last(Split(pre + [c], sep)))
  {
    SplitSnoc(pre, c, sep);
    if c == sep {
      SeparatorOpensSegment(pre, sep);
    } else {
      LetterExtendsSegment(pre, c, sep, Last(Split(pre, sep)));
    }
  }

  /** After a trailing separator the last segment is empty. */
  lemma SeparatorOpensSegment(pre: string, sep: char)
    ensures IsLastSegment(pre + [sep], sep, [])
  {
    assert (pre + [sep])[|pre|] == sep;
  }

  /** A trailing non-separator extends the last segment. */
  lemma LetterExtendsSegment(pre: string, c: char, sep: char, seg: string)
    requires c != sep
    requires IsLastSegment(pre, sep, seg)
    ensures IsLastSegment(pre + [c], sep, seg + [c])
  {
    InSnoc(pre, c, sep);
    InSnoc(seg, c, sep);
    SuffixSnoc(pre, seg, c);
  }

  /** Splitting after one more character: a separator opens a new, empty
      segment; any other character extends the last one. */
  lemma SplitSnoc(pre: string, c: char, sep: char)
    ensures var init := Split(pre, sep);
      Last(Split(pre + [c], sep)) == if c == sep then [] else Last(init) + [c]
  {
    assert (pre + [c])[..|pre|] == pre;
  }

  /** A character is in `pre + [c]` exactly when it is in `pre` or is `c`. */
  lemma InSnoc(pre: string, c: char, x: char)
    ensures x in pre + [c] <==> x in pre || x == c
  {
    if x in pre {
      var i :| 0 <= i < |pre| && pre[i] == x;
      assert (pre + [c])[i] == x;
    }
  }

  /** A suffix of `pre` followed by `c` is a suffix of `pre + [c]`, preceded by
      the same character as before. */
  lemma SuffixSnoc(pre: string, seg: string, c: char)
    requires EndsWith(pre, seg)
    ensures EndsWith(pre + [c], seg + [c])
    ensures |seg| < |pre| ==> (pre + [c])[|pre| - |seg| - 1] == pre[|pre| - |seg| - 1]
  {
    assert (pre + [c])[|pre| - |seg|..] == pre[|pre| - |seg|..] + [c];
  }

  /** The character standing for a decimal digit. */
  function DigitChar(d: nat): (c: char)
    requires d < 10
    ensures '0' <= c <= '9'
  {
    ('0' as int + d) as char
  }

  /** The value of a decimal-digit character. */
  function DigitValue(c: char): nat
  {
    if '0' <= c <= '9' then c as int - '0' as int else 0
  }

  /** `${n}` for a non-negative integer: its decimal digits, most significant
      first, without leading zeros. */
  function Decimal(n: nat): (r: string)
    ensures |r| >= 1
    ensures forall i :: 0 <= i < |r| ==> '0' <= r[i] <= '9'
    ensures r[0] == '0' ==> n == 0
    ensures n < 10 <==> |r| == 1
    decreases n
  {
    if n < 10 then [DigitChar(n)] else Decimal(n / 10) + [DigitChar(n % 10)]
  }

  /** The number a string of decimal digits denotes. */
  function ParseDecimal(s: string): nat
    decreases |s|
  {
    if s == [] then 0 else 10 * ParseDecimal(s[..|s| - 1]) + DigitValue(Last(s))
  }

  /** Reading back the decimal rendering of `n` gives `n`. */
  lemma {:induction false} ParseDecimalOfDecimal(n: nat)
    ensures ParseDecimal(Decimal(n)) == n
    decreases n
  {
    if n >= 10 {
      ParseDecimalOfDecimal(n / 10);
      var r := Decimal(n);
      assert r[..|r| - 1] == Decimal(n / 10);
    }
  }

  /** Different numbers render differently. */
  lemma DecimalInjective(m: nat, n: nat)
    requires Decimal(m) == Decimal(n)
    ensures m == n
  {
    ParseDecimalOfDecimal(m);
    ParseDecimalOfDecimal(n);
  }
}
