/** The storage object name chosen for an upload (`onUpload` in src/App.tsx):
    the lower-cased extension of the file name and a key under `public/`. */
module StorageKey {
  import opened JsString

  /** The extension used when the name's last segment is empty. */
  const DEFAULT_EXTENSION: string := "bin"

  /** The prefix of every storage key. */
  const KEY_PREFIX: string := "public/"

  /** `name.split('.').pop()?.toLowerCase() || 'bin'`. */
  function Extension(name: string): (ext: string)
    ensures ext != []
    ensures '.' !in ext
  {
    var seg := Lower(Last(Split(name, '.')));
    LowerKeepsNonLetters(Last(Split(name, '.')), '.');
    if seg == [] then DEFAULT_EXTENSION else seg
  }

  /** The extension is already in lower case. */
  lemma ExtensionIsLowerCase(name: string)
    ensures Lower(Extension(name)) == Extension(name)
  {
    LowerIdempotent(Last(Split(name, '.')));
    assert Lower(DEFAULT_EXTENSION) == DEFAULT_EXTENSION;
  }

  /** The extension is the lower-cased text after the last '.' of the name (all
      of the name when it has no '.'), or `bin` when that text is empty. */
  lemma ExtensionIsLowerLastSegment(name: string)
    ensures var seg := Last(Split(name, '.'));
      '.' !in seg &&
      EndsWith(name, seg) &&
      (if '.' in name then name[|name| - |seg| - 1] == '.' else seg == name) &&
      Extension(name) == if seg == [] then DEFAULT_EXTENSION else Lower(seg)
  {
    LastSegmentIsAfterLastSeparator(name, '.');
  }

  /** An upper-case extension is lower-cased. */
  lemma ExtensionOfUpperCase()
    ensures Extension("report.CSV") == "csv"
  {
    SplitJoin(["report", "CSV"], '.');
    assert Join(["report", "CSV"], '.') == "report.CSV";
    assert Lower("CSV") == "csv";
  }

  /** A name ending in '.' gets the default extension. */
  lemma ExtensionOfTrailingDot()
    ensures Extension("archive.") == DEFAULT_EXTENSION
  {
    SplitJoin(["archive", ""], '.');
    assert Join(["archive", ""], '.') == "archive.";
  }

  /** A name without '.' is its own extension. */
  lemma ExtensionWithoutDot()
    ensures Extension("README") == "readme"
  {
    SplitOfSeparatorFree("README", '.');
    assert Lower("README") == "readme";
  }

  /** Only the text after the last '.' counts. */
  lemma ExtensionAfterLastDot()
    ensures Extension("vendas.2024.XLSX") == "xlsx"
  {
    SplitJoin(["vendas", "2024", "XLSX"], '.');
    assert Join(["vendas", "2024", "XLSX"], '.') == "vendas.2024.XLSX";
    assert Lower("XLSX") == "xlsx";
  }

  /** `public/${Date.now()}-${Math.random().toString(16).slice(2)}.${ext}`, with
      the clock reading and the random hex digits given as inputs. */
  function Key(name: string, nowMillis: nat, randomHex: string): (key: string)
    ensures StartsWith(key, KEY_PREFIX)
    ensures EndsWith(key, "." + Extension(name))
  {
    var ext := Extension(name);
    var stem := Decimal(nowMillis) + "-" + randomHex;
    Framed(KEY_PREFIX, stem, ".", ext);
    KEY_PREFIX + stem + "." + ext
  }

  /** `p + m + dot + e` starts with `p` and ends with `dot + e`. */
  lemma Framed(p: string, m: string, dot: string, e: string)
    ensures StartsWith(p + m + dot + e, p) && EndsWith(p + m + dot + e, dot + e)
  {
    var k := p + m + dot + e;
    assert k[..|p|] == p;
    assert k[|p + m|..] == dot + e;
  }

  /** The key keeps the file's extension: it is the key's own last segment, so
      deriving an extension from the key gives it back. */
  lemma KeyKeepsExtension(name: string, nowMillis: nat, randomHex: string)
    ensures Last(Split(Key(name, nowMillis, randomHex), '.')) == Extension(name)
    ensures Extension(Key(name, nowMillis, randomHex)) == Extension(name)
  {
    var ext := Extension(name);
    var stem := KEY_PREFIX + Decimal(nowMillis) + "-" + randomHex;
    assert Key(name, nowMillis, randomHex) == stem + ['.'] + ext;
    SplitAppendSegment(stem, ext, '.');
    ExtensionIsLowerCase(name);
  }

  /** The key laid out as prefix, clock digits and the rest. */
  lemma KeyLayout(name: string, nowMillis: nat, randomHex: string)
    ensures Key(name, nowMillis, randomHex) ==
      KEY_PREFIX + (Decimal(nowMillis) + ("-" + randomHex + "." + Extension(name)))
  {
    Regroup(KEY_PREFIX, Decimal(nowMillis), "-", randomHex, ".", Extension(name));
  }

  /** The characters of `key` from `start` up to `end` are decimal digits
      denoting `t`, and they are followed by a '-'. */
  predicate ClockField(key: string, start: nat, end: nat, t: nat)
  {
    start <= end < |key| && key[end] == '-' &&
    (forall i :: start <= i < end ==> '0' <= key[i] <= '9') &&
    ParseDecimal(key[start..end]) == t
  }

  /** The clock reading can be read back from the key: after `public/` come
      decimal digits up to the first '-', and they denote `nowMillis`. */
  lemma KeyClockReadsBack(name: string, nowMillis: nat, randomHex: string)
    ensures ClockField(Key(name, nowMillis, randomHex), |KEY_PREFIX|,
                       |KEY_PREFIX| + |Decimal(nowMillis)|, nowMillis)
  {
    var tail := "-" + randomHex + "." + Extension(name);
    KeyLayout(name, nowMillis, randomHex);
    DigitsThenDash(Key(name, nowMillis, randomHex), KEY_PREFIX, Decimal(nowMillis), tail, nowMillis);
  }

  /** `k == prefix + (Decimal(t) + tail)` holds the clock field of `t` when
      `tail` starts with '-'. */
  lemma DigitsThenDash(k: string, prefix: string, d: string, tail: string, t: nat)
    requires k == prefix + (d + tail)
    requires d == Decimal(t) && |tail| > 0 && tail[0] == '-'
    ensures ClockField(k, |prefix|, |prefix| + |d|, t)
  {
    assert k[|prefix|..|prefix| + |d|] == d;
    assert forall i :: |prefix| <= i < |prefix| + |d| ==> k[i] == d[i - |prefix|];
    ParseDecimalOfDecimal(t);
  }

  /** Regrouping a concatenation of six strings around its second one. */
  lemma Regroup(p: string, d: string, m: string, r: string, dot: string, e: string)
    ensures p + (d + m + r) + dot + e == p + (d + (m + r + dot + e))
  {
  }

  /** Two uploads at different clock readings get different keys, whatever
      the two files' names and the two random suffixes: the clock field after
      `public/` ends at the first '-', so equal keys would have equal clock
      fields. */
  lemma KeysDifferInTime(name1: string, name2: string, t1: nat, t2: nat,
                         randomHex1: string, randomHex2: string)
    requires t1 != t2
    ensures Key(name1, t1, randomHex1) != Key(name2, t2, randomHex2)
  {
    var k1, k2 := Key(name1, t1, randomHex1), Key(name2, t2, randomHex2);
    var start, end1, end2 := |KEY_PREFIX|, |KEY_PREFIX| + |Decimal(t1)|, |KEY_PREFIX| + |Decimal(t2)|;
    assert ClockField(k1, start, end1, t1) by {
      KeyClockReadsBack(name1, t1, randomHex1);
    }
    assert ClockField(k2, start, end2, t2) by {
      KeyClockReadsBack(name2, t2, randomHex2);
    }
    ClockFieldsDiffer(k1, k2, start, end1, end2, t1, t2);
  }

  /** Strings whose clock fields from the same start denote different numbers
      differ: a shorter field's '-' faces a digit of the longer one. */
  lemma ClockFieldsDiffer(k1: string, k2: string, start: nat, end1: nat, end2: nat, t1: nat, t2: nat)
    requires ClockField(k1, start, end1, t1) && ClockField(k2, start, end2, t2) && t1 != t2
    ensures k1 != k2
  {
    if end1 < end2 {
      assert k1[end1] != k2[end1];
    } else if end2 < end1 {
      assert k1[end2] != k2[end2];
    } else {
      assert k1[start..end1] != k2[start..end2];
    }
  }
}
