/** The string operations the models need. A `char` stands for one byte of a Go string. */
module Text {

  datatype Option<+T> = None | Some(value: T)

  /** The position of the first occurrence of `sep` in `s`, or -1. */
  function Find(s: string, sep: string): (r: int)
    ensures -1 <= r
    ensures r >= 0 ==> r + |sep| <= |s| && s[r..r + |sep|] == sep
  {
    if |s| < |sep| then -1
    else if s[..|sep|] == sep then 0
    else if s == "" then -1
    else var r := Find(s[1..], sep); if r < 0 then -1 else r + 1
  }

  /** `strings.SplitN`: at most `n` pieces, the last one holding the unsplit rest. */
  function SplitN(s: string, sep: string, n: nat): (r: seq<string>)
    requires sep != "" && n >= 1
    ensures 1 <= |r| <= n
    decreases n
  {
    var i := Find(s, sep);
    if n == 1 || i < 0 then [s] else [s[..i]] + SplitN(s[i + |sep|..], sep, n - 1)
  }

  /** `strings.Split`. */
  function Split(s: string, sep: string): (r: seq<string>)
    requires sep != ""
    ensures |r| >= 1
    decreases |s|
  {
    var i := Find(s, sep);
    if i < 0 then [s] else [s[..i]] + Split(s[i + |sep|..], sep)
  }

  /** `strings.Join`. */
  function Join(parts: seq<string>, sep: string): string {
    if |parts| == 0 then ""
    else if |parts| == 1 then parts[0]
    else parts[0] + sep + Join(parts[1..], sep)
  }

  function TrimPrefix(s: string, prefix: string): string {
    if prefix <= s then s[|prefix|..] else s
  }

  predicate HasSuffix(s: string, suffix: string) {
    |suffix| <= |s| && s[|s| - |suffix|..] == suffix
  }

  function TrimSuffix(s: string, suffix: string): string {
    if HasSuffix(s, suffix) then s[..|s| - |suffix|] else s
  }

  /** Upper-casing of ASCII letters. */
  function ToUpper(s: string): (r: string)
    ensures |r| == |s|
    ensures forall i :: 0 <= i < |s| ==> r[i] == UpperChar(s[i])
  {
    seq(|s|, i requires 0 <= i < |s| => UpperChar(s[i]))
  }

  function UpperChar(c: char): char {
    if 'a' <= c <= 'z' then c - 'a' + 'A' else c
  }

  /** Lower-casing of ASCII letters. */
  function ToLower(s: string): (r: string)
    ensures |r| == |s|
    ensures forall i :: 0 <= i < |s| ==> r[i] == LowerChar(s[i])
  {
    seq(|s|, i requires 0 <= i < |s| => LowerChar(s[i]))
  }

  function LowerChar(c: char): char {
    if 'A' <= c <= 'Z' then c - 'A' + 'a' else c
  }

  lemma {:induction false} FindAbsent(s: string, sep: string)
    requires sep != "" && sep[|sep| - 1] !in s
    ensures Find(s, sep) == -1
  {
    if |s| >= |sep| {
      assert s[|sep| - 1] in s;
      assert s[..|sep|][|sep| - 1] == s[|sep| - 1];
      FindAbsent(s[1..], sep);
    }
  }

  /** A separator whose last character cannot occur earlier is found where it stands. */
  lemma {:induction false} FindFirst(head: string, sep: string, tail: string)
    requires sep != ""
    requires sep[|sep| - 1] !in head && sep[|sep| - 1] !in sep[..|sep| - 1]
    ensures Find(head + sep + tail, sep) == |head|
  {
    var s := head + sep + tail;
    if head == "" {
      assert s[..|sep|] == sep;
    } else {
      assert s[1..] == head[1..] + sep + tail;
      FindFirst(head[1..], sep, tail);
      var j := |sep| - 1;
      assert s[j] != sep[j] by {
        if j < |head| {
          assert s[j] == head[j];
        } else {
          assert s[j] == sep[..j][j - |head|];
        }
      }
      assert s[..|sep|][j] == s[j];
    }
  }

  /** Splitting once at a separator that cannot occur earlier gives back both sides. */
  lemma {:induction false} SplitOnce(head: string, sep: string, tail: string)
    requires sep != ""
    requires sep[|sep| - 1] !in head && sep[|sep| - 1] !in sep[..|sep| - 1]
    ensures SplitN(head + sep + tail, sep, 2) == [head, tail]
  {
    FindFirst(head, sep, tail);
    var s := head + sep + tail;
    assert s[..|head|] == head;
    assert s[|head| + |sep|..] == tail;
    assert SplitN(tail, sep, 1) == [tail];
  }

  /** Splitting into several parts begins with what is in front of the first separator. */
  lemma {:induction false} SplitFirst(head: string, c: char, tail: string, n: nat)
    requires c !in head && n >= 2
    ensures SplitN(head + [c] + tail, [c], n) == [head] + SplitN(tail, [c], n - 1)
  {
    FindFirst(head, [c], tail);
    var s := head + [c] + tail;
    assert s[..|head|] == head && s[|head| + 1..] == tail;
  }

  /** Joining with a one-character separator is undone by splitting when no part contains it. */
  lemma {:induction false} SplitJoin(parts: seq<string>, c: char)
    requires |parts| >= 1
    requires forall i :: 0 <= i < |parts| ==> c !in parts[i]
    ensures Split(Join(parts, [c]), [c]) == parts
  {
    if |parts| == 1 {
      FindAbsent(parts[0], [c]);
    } else {
      var rest := Join(parts[1..], [c]);
      FindFirst(parts[0], [c], rest);
      var s := parts[0] + [c] + rest;
      assert Join(parts, [c]) == s && Find(s, [c]) == |parts[0]|;
      assert s[..|parts[0]|] == parts[0] && s[|parts[0]| + 1..] == rest;
      assert Split(s, [c]) == [parts[0]] + Split(rest, [c]);
      SplitJoin(parts[1..], c);
      assert [parts[0]] + parts[1..] == parts;
    }
  }

  lemma {:induction false} JoinCons(head: string, parts: seq<string>, sep: string)
    requires parts != []
    ensures Join([head] + parts, sep) == head + sep + Join(parts, sep)
  {
    assert ([head] + parts)[1..] == parts;
  }

  /** Splitting loses nothing: joining the pieces gives the text back. */
  lemma {:induction false} JoinSplit(s: string, sep: string)
    requires sep != ""
    ensures Join(Split(s, sep), sep) == s
    decreases |s|
  {
    var i := Find(s, sep);
    if i >= 0 {
      var head, rest := s[..i], s[i + |sep|..];
      SplitsAround(s, sep, i);
      JoinSplit(rest, sep);
      JoinCons(head, Split(rest, sep), sep);
      assert Split(s, sep) == [head] + Split(rest, sep);
    }
  }

  lemma {:induction false} SplitsAround(s: string, sep: string, i: nat)
    requires i + |sep| <= |s| && s[i..i + |sep|] == sep
    ensures s == s[..i] + sep + s[i + |sep|..]
  {
  }

  lemma {:induction false} JoinAppend(parts: seq<string>, last: string, sep: string)
    requires parts != []
    ensures Join(parts + [last], sep) == Join(parts, sep) + sep + last
  {
    var all := parts + [last];
    if |parts| == 1 {
      assert all[1..] == [last];
    } else {
      assert all[1..] == parts[1..] + [last];
      JoinAppend(parts[1..], last, sep);
    }
  }

  // Decimal numbers

  function Digit(d: nat): (c: char)
    requires d < 10
    ensures '0' <= c <= '9'
  {
    '0' + d as char
  }

  predicate IsDigit(c: char) {
    '0' <= c <= '9'
  }

  /** `%d` of a natural number. */
  function Dec(n: nat): (r: string)
    ensures r != "" && forall i :: 0 <= i < |r| ==> IsDigit(r[i])
  {
    if n < 10 then [Digit(n)] else Dec(n / 10) + [Digit(n % 10)]
  }

  const UINT64_LIMIT: nat := 0x1_0000_0000_0000_0000

  function DigitsValue(s: string): nat
    requires forall i :: 0 <= i < |s| ==> IsDigit(s[i])
  {
    if s == "" then 0 else
    assert IsDigit(s[|s| - 1]);
    10 * DigitsValue(s[..|s| - 1]) + (s[|s| - 1] as int - '0' as int)
  }

  /** `strconv.ParseUint(s, 10, 64)`: digits only, not empty, below 2^64. */
  function ParseUint(s: string): Option<nat> {
    if s == "" || !(forall i :: 0 <= i < |s| ==> IsDigit(s[i])) then None
    else if DigitsValue(s) >= UINT64_LIMIT then None
    else Some(DigitsValue(s))
  }

  lemma {:induction false} DigitsValueDec(n: nat)
    ensures DigitsValue(Dec(n)) == n
  {
    var r := Dec(n);
    if n >= 10 {
      DigitsValueDec(n / 10);
      assert r[..|r| - 1] == Dec(n / 10);
    } else {
      assert r[..0] == "";
    }
  }

  lemma {:induction false} ParseUintDec(n: nat)
    requires n < UINT64_LIMIT
    ensures ParseUint(Dec(n)) == Some(n)
  {
    DigitsValueDec(n);
  }

  /** Different numbers print differently. */
  lemma {:induction false} DecInjective(m: nat, n: nat)
    requires Dec(m) == Dec(n)
    ensures m == n
  {
    DigitsValueDec(m);
    DigitsValueDec(n);
  }
}
