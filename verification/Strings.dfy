/** Character classes, digits and splitting, as the name parsers use them. */
module Strings {
  import opened Wrappers

  predicate IsDigit(c: char) { '0' <= c <= '9' }
  predicate IsHexDigit(c: char) { '0' <= c <= '9' || 'a' <= c <= 'f' || 'A' <= c <= 'F' }
  predicate IsLower(c: char) { 'a' <= c <= 'z' }
  predicate IsUpper(c: char) { 'A' <= c <= 'Z' }

  lemma HexDigitExactly(c: char)
    ensures IsHexDigit(c) <==>
      c as int in {48, 49, 50, 51, 52, 53, 54, 55, 56, 57, 65, 66, 67, 68, 69, 70, 97, 98, 99, 100, 101, 102}
  {
  }

  predicate Digits(s: string) { forall c | c in s :: IsDigit(c) }
  predicate HexDigits(s: string) { forall c | c in s :: IsHexDigit(c) }

  function DigitChar(d: nat): (c: char)
    requires d < 16
    ensures IsHexDigit(c) && (d < 10 ==> IsDigit(c)) && DigitValue(c) == d
  {
    if d < 10 then (48 + d) as char else (87 + d) as char
  }

  /** What a lower-case hexadecimal digit counts. */
  function DigitValue(c: char): nat
  {
    if '0' <= c <= '9' then c as int - '0' as int
    else if 'a' <= c <= 'f' then 10 + (c as int - 'a' as int)
    else 0
  }

  function StripPrefix(s: string, prefix: string): (r: Option<string>)
    ensures r.Some? <==> prefix <= s
    ensures r.Some? ==> s == prefix + r.value
  {
    if prefix <= s then Some(s[|prefix|..]) else None
  }

  predicate EndsWith(s: string, suffix: string)
  {
    |suffix| <= |s| && s[|s| - |suffix|..] == suffix
  }

  function StripSuffix(s: string, suffix: string): (r: Option<string>)
    ensures r.Some? <==> EndsWith(s, suffix)
    ensures r.Some? ==> s == r.value + suffix
  {
    if EndsWith(s, suffix) then Some(s[..|s| - |suffix|]) else None
  }

  /** `rsplit_once('.')`: cut at the last dot. */
  function RSplit(s: string): (r: Option<(string, string)>)
    ensures r.None? <==> '.' !in s
    ensures r.Some? ==> s == r.value.0 + "." + r.value.1 && '.' !in r.value.1
  {
    if s == "" then None
    else
      var n := |s| - 1;
      if s[n] == '.' then Some((s[..n], ""))
      else
        match RSplit(s[..n])
        case None => None
        case Some((left, right)) => Some((left, right + [s[n]]))
  }

  lemma {:induction false} SplitsAtLastDot(left: string, right: string)
    requires '.' !in right
    ensures RSplit(left + "." + right) == Some((left, right))
    decreases |right|
  {
    var s, n := left + "." + right, |left| + |right|;
    if right == "" {
      assert s[n] == '.' && s[..n] == left;
    } else {
      var shorter := right[..|right| - 1];
      assert s[n] in right && s[..n] == left + "." + shorter;
      SplitsAtLastDot(left, shorter);
      assert shorter + [s[n]] == right;
    }
  }

  /** `split(separator)` */
  function Split(s: string, separator: char): (parts: seq<string>)
    ensures |parts| >= 1
  {
    if s == "" then [""]
    else
      var rest := Split(s[1..], separator);
      if s[0] == separator then [""] + rest else [[s[0]] + rest[0]] + rest[1..]
  }

  lemma {:induction false} SplitsAtFirst(left: string, separator: char, right: string)
    requires separator !in left
    ensures Split(left + [separator] + right, separator) == [left] + Split(right, separator)
  {
    var s := left + [separator] + right;
    if left == "" {
      assert s[1..] == right;
    } else {
      assert s[1..] == left[1..] + [separator] + right;
      SplitsAtFirst(left[1..], separator, right);
      assert [left[0]] + left[1..] == left;
    }
  }

  lemma {:induction false} NoSeparatorNoSplit(s: string, separator: char)
    requires separator !in s
    ensures Split(s, separator) == [s]
  {
    if s != "" {
      NoSeparatorNoSplit(s[1..], separator);
      assert [s[0]] + s[1..] == s;
    }
  }

  lemma {:induction false} SplitJoins(s: string, separator: char)
    ensures var parts := Split(s, separator);
      && (|parts| == 1 ==> s == parts[0])
      && (|parts| == 2 ==> s == parts[0] + [separator] + parts[1])
      && (|parts| == 3 ==> s == parts[0] + [separator] + parts[1] + [separator] + parts[2])
  {
    if s != "" {
      SplitJoins(s[1..], separator);
      assert s == [s[0]] + s[1..];
    }
  }
}
