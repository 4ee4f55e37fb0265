/**
 * The fixed naming scheme of the managed log files: `app_<n>.log` inside the
 * configured directory (toFileName and the two toFilePath overloads of
 * logrotate.cpp).
 */
module Naming {
  import opened Wrappers

  /** LOG_NAME followed by the separator, the start of every managed name. */
  const Prefix: string := "app_"
  const Extension: string := ".log"

  predicate IsDigit(c: char) {
    '0' <= c <= '9'
  }

  predicate AllDigits(s: string) {
    forall i :: 0 <= i < |s| ==> IsDigit(s[i])
  }

  /** A numeral as std::to_string writes a non-negative int: digits, no leading zero. */
  predicate CanonicalDecimal(s: string) {
    |s| >= 1 && AllDigits(s) && (s[0] == '0' ==> |s| == 1)
  }

  function DigitValue(c: char): (d: nat)
    requires IsDigit(c)
    ensures d < 10
  {
    c as int - '0' as int
  }

  function DigitChar(d: nat): (c: char)
    requires d < 10
    ensures IsDigit(c) && DigitValue(c) == d
  {
    ('0' as int + d) as char
  }

  /** The decimal digits of `n`. */
  function Decimal(n: nat): (s: string)
    ensures CanonicalDecimal(s)
    ensures s[0] == '0' <==> n == 0
  {
    if n < 10 then [DigitChar(n)] else Decimal(n / 10) + [DigitChar(n % 10)]
  }

  /** The number a string of digits denotes. */
  function ParseDecimal(s: string): nat
    requires AllDigits(s)
  {
    if |s| == 0 then 0 else 10 * ParseDecimal(s[..|s| - 1]) + DigitValue(s[|s| - 1])
  }

  lemma {:induction false} ParseDecimalOfDecimal(n: nat)
    ensures ParseDecimal(Decimal(n)) == n
  {
    if n >= 10 {
      var s := Decimal(n);
      assert s[..|s| - 1] == Decimal(n / 10);
      ParseDecimalOfDecimal(n / 10);
    }
  }

  lemma {:induction false} ParseDecimalPositive(s: string)
    requires AllDigits(s) && |s| >= 1 && s[0] != '0'
    ensures ParseDecimal(s) >= 1
  {
    if |s| > 1 {
      ParseDecimalPositive(s[..|s| - 1]);
    }
  }

  lemma {:induction false} DecimalOfParseDecimal(s: string)
    requires CanonicalDecimal(s)
    ensures Decimal(ParseDecimal(s)) == s
  {
    if |s| == 1 {
      assert DigitChar(DigitValue(s[0])) == s[0];
    } else {
      var init := s[..|s| - 1];
      assert init[0] == s[0];
      ParseDecimalPositive(init);
      DecimalOfParseDecimal(init);
      var n := ParseDecimal(s);
      assert n / 10 == ParseDecimal(init) && n % 10 == DigitValue(s[|s| - 1]);
      assert DigitChar(DigitValue(s[|s| - 1])) == s[|s| - 1];
      assert s == init + [s[|s| - 1]];
    }
  }

  /** toFileName: the prefix, the decimal index, the extension. */
  function FileName(n: nat): (name: string)
    ensures !Hidden(name)
  {
    var name := Prefix + Decimal(n) + Extension;
    assert name[0] == Prefix[0];
    name
  }

  /** Reads the index back out of a managed file name; None for any other name. */
  function ParseFileName(name: string): Option<nat> {
    if |name| >= |Prefix| + |Extension| + 1
       && name[..|Prefix|] == Prefix
       && name[|name| - |Extension|..] == Extension
       && CanonicalDecimal(name[|Prefix|..|name| - |Extension|])
    then Some(ParseDecimal(name[|Prefix|..|name| - |Extension|]))
    else None
  }

  lemma FileNameRoundTrip(n: nat)
    ensures ParseFileName(FileName(n)) == Some(n)
  {
    var name := FileName(n);
    assert name[..|Prefix|] == Prefix;
    assert name[|name| - |Extension|..] == Extension;
    assert name[|Prefix|..|name| - |Extension|] == Decimal(n);
    ParseDecimalOfDecimal(n);
  }

  lemma ParseFileNameInverse(name: string)
    requires ParseFileName(name).Some?
    ensures FileName(ParseFileName(name).value) == name
  {
    var digits := name[|Prefix|..|name| - |Extension|];
    DecimalOfParseDecimal(digits);
    assert name == name[..|Prefix|] + digits + name[|name| - |Extension|..];
  }

  lemma FileNameInjective(m: nat, n: nat)
    requires FileName(m) == FileName(n)
    ensures m == n
  {
    FileNameRoundTrip(m);
    FileNameRoundTrip(n);
  }

  /** The scanner's test: a name that starts with a dot. */
  predicate Hidden(name: string) {
    |name| > 0 && name[0] == '.'
  }

  /** The name a path denotes inside `dir`, when the path is `dir` + "/" + name. */
  function NameInDir(dir: string, path: string): Option<string> {
    if |path| > |dir| && path[..|dir| + 1] == dir + "/" then Some(path[|dir| + 1..]) else None
  }

  /** toFilePath(fname): the directory, a slash, the name. */
  function FilePath(dir: string, name: string): (path: string)
    ensures NameInDir(dir, path) == Some(name)
  {
    assert (dir + "/" + name)[..|dir| + 1] == dir + "/";
    assert (dir + "/" + name)[|dir| + 1..] == name;
    dir + "/" + name
  }

  lemma NameInDirInverse(dir: string, path: string)
    requires NameInDir(dir, path).Some?
    ensures FilePath(dir, NameInDir(dir, path).value) == path
  {
    assert path == path[..|dir| + 1] + path[|dir| + 1..];
  }

  /** toFilePath(number): the same path, written piece by piece through a string stream. */
  function NumberedPath(dir: string, n: nat): (path: string)
    ensures path == FilePath(dir, FileName(n))
    ensures NameInDir(dir, path) == Some(FileName(n))
  {
    dir + "/" + "app" + "_" + Decimal(n) + ".log"
  }
}
