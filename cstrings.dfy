/** Character-string helpers shared by the runtime model: the scan that
    `strpbrk`/`strchr` perform, the view of a Lua string as a C string, and
    the concatenation of a growing string buffer. */
module CStrings {

  import opened Wrappers

  /** The first index at or after `from` whose character is in `d`, or `|s|`
      when there is none: what `strpbrk` returns, as an offset. */
  function FirstIn(s: string, from: nat, d: set<char>): (i: nat)
    requires from <= |s|
    ensures from <= i <= |s|
    ensures i < |s| ==> s[i] in d
    ensures forall k :: from <= k < i ==> s[k] !in d
    decreases |s| - from
  {
    if from == |s| || s[from] in d then from else FirstIn(s, from + 1, d)
  }

  /** The postconditions of FirstIn pin its result down: any index with the
      same two properties is that result. */
  lemma FirstInUnique(s: string, from: nat, d: set<char>, i: nat)
    requires from <= i <= |s|
    requires i < |s| ==> s[i] in d
    requires forall k :: from <= k < i ==> s[k] !in d
    ensures FirstIn(s, from, d) == i
  {
  }

  /** A Lua string seen through a `const char *`: everything before the
      first NUL character. */
  function CStr(s: string): (c: string)
    ensures |c| <= |s| && c == s[..|c|]
    ensures '\0' !in c
    ensures |c| < |s| ==> s[|c|] == '\0'
  {
    s[..FirstIn(s, 0, {'\0'})]
  }

  /** A string without NUL is its own C-string view. */
  lemma CStrOfPlain(s: string)
    requires '\0' !in s
    ensures CStr(s) == s
  {
    FirstInUnique(s, 0, {'\0'}, |s|);
  }

  /** A NULL-terminated array of strings: the strings, then NULL. */
  function NullTerminated(xs: seq<string>): (v: seq<Option<string>>)
    ensures |v| == |xs| + 1 && v[|xs|] == None
    ensures forall i :: 0 <= i < |xs| ==> v[i] == Some(xs[i])
  {
    seq(|xs|, i requires 0 <= i < |xs| => Some(xs[i])) + [None]
  }

  /** The concatenation of a sequence of strings, in order. */
  function Concat(parts: seq<string>): (r: string)
    ensures parts == [] ==> r == []
  {
    if parts == [] then [] else Concat(parts[..|parts| - 1]) + parts[|parts| - 1]
  }

  /** Concatenation distributes over appending one more part. */
  lemma ConcatAppend(parts: seq<string>, p: string)
    ensures Concat(parts + [p]) == Concat(parts) + p
  {
    assert (parts + [p])[..|parts|] == parts;
  }

  /** The decimal text of a natural number, as `%d` or Lua's number
      conversion writes it. */
  function Decimal(n: nat): (r: string)
    ensures |r| >= 1
    ensures forall k :: 0 <= k < |r| ==> '0' <= r[k] <= '9'
    ensures n > 0 ==> r[0] != '0'
  {
    if n < 10 then [DigitChar(n)] else Decimal(n / 10) + [DigitChar(n % 10)]
  }

  function DigitChar(d: nat): (c: char)
    requires d < 10
    ensures '0' <= c <= '9'
  {
    ('0' as int + d) as char
  }

  /** Reading decimal text back. */
  function DecimalValue(r: string): nat
    requires forall k :: 0 <= k < |r| ==> '0' <= r[k] <= '9'
  {
    if r == [] then 0 else DecimalValue(r[..|r| - 1]) * 10 + (r[|r| - 1] as int - '0' as int)
  }

  /** Decimal text reads back as the number it was written from. */
  lemma {:induction false} DecimalRoundTrip(n: nat)
    ensures DecimalValue(Decimal(n)) == n
  {
    if n >= 10 {
      DecimalRoundTrip(n / 10);
      var r := Decimal(n);
      assert r[..|r| - 1] == Decimal(n / 10);
    }
  }
}
