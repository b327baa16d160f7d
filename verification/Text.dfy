/** Decimal formatting, integer parsing and `str.rpartition`, as the key formats use them. */
module Text {
  import opened Wrappers

  predicate IsDigit(c: char) {
    '0' <= c <= '9'
  }

  predicate AllDigits(s: string) {
    forall i :: 0 <= i < |s| ==> IsDigit(s[i])
  }

  function DigitChar(d: nat): (c: char)
    requires d < 10
    ensures IsDigit(c) && c as int - '0' as int == d
  {
    (d + '0' as int) as char
  }

  /** `str(n)` for a non-negative integer. */
  function Digits(n: nat): (s: string)
    ensures s != [] && AllDigits(s)
  {
    if n < 10 then [DigitChar(n)] else Digits(n / 10) + [DigitChar(n % 10)]
  }

  /** `str(v)`. */
  function Str(v: int): string {
    if v < 0 then "-" + Digits(-v) else Digits(v)
  }

  /** The value of a string of digits, most significant first. */
  function NatValue(s: string): nat
    requires AllDigits(s)
  {
    if s == [] then 0
    else 10 * NatValue(s[..|s| - 1]) + (s[|s| - 1] as int - '0' as int)
  }

  /** `int(s)` on the canonical spellings; anything else is the ValueError case. */
  function ParseInt(s: string): Option<int> {
    if s != [] && AllDigits(s) then Some(NatValue(s))
    else if |s| > 1 && s[0] == '-' && AllDigits(s[1..]) then
      var magnitude: int := NatValue(s[1..]);
      Some(-magnitude)
    else None
  }

  lemma {:induction false} NatValueOfDigits(n: nat)
    ensures NatValue(Digits(n)) == n
  {
    if n >= 10 {
      NatValueOfDigits(n / 10);
      var s := Digits(n);
      assert s[..|s| - 1] == Digits(n / 10);
    } else {
      assert Digits(n)[..0] == [];
    }
  }

  /** Parsing inverts formatting for every integer, negative ones included. */
  lemma ParseStr(v: int)
    ensures ParseInt(Str(v)) == Some(v)
  {
    if v < 0 {
      NatValueOfDigits(-v);
      assert Str(v)[1..] == Digits(-v);
    } else {
      NatValueOfDigits(v);
    }
  }

  /** `f"{n:08d}"` pads with zeros on the left up to `width`. */
  function ZeroPad(s: string, width: nat): (r: string)
    ensures AllDigits(s) ==> AllDigits(r)
    decreases width - |s|
  {
    if |s| >= width then s else ZeroPad("0" + s, width)
  }

  lemma {:induction false} LeadingZero(s: string)
    requires AllDigits(s)
    ensures AllDigits("0" + s) && NatValue("0" + s) == NatValue(s)
    decreases |s|
  {
    var z := "0" + s;
    if s == [] {
      assert z[..0] == [];
    } else {
      LeadingZero(s[..|s| - 1]);
      assert z[..|z| - 1] == "0" + s[..|s| - 1];
    }
  }

  lemma {:induction false} ZeroPadKeepsValue(s: string, width: nat)
    requires AllDigits(s)
    ensures NatValue(ZeroPad(s, width)) == NatValue(s)
    decreases width - |s|
  {
    if |s| < width {
      LeadingZero(s);
      ZeroPadKeepsValue("0" + s, width);
    }
  }

  lemma {:induction false} ZeroPadLength(s: string, width: nat)
    ensures |ZeroPad(s, width)| == if |s| < width then width else |s|
    ensures |s| >= width ==> ZeroPad(s, width) == s
    decreases width - |s|
  {
    if |s| < width {
      ZeroPadLength("0" + s, width);
    }
  }

  /** `s.rpartition(sep)` for a one-character separator, as (head, found, tail). */
  function RPartition(s: string, sep: char): (string, bool, string) {
    if s == [] then ("", false, "")
    else if s[|s| - 1] == sep then (s[..|s| - 1], true, "")
    else
      var p := RPartition(s[..|s| - 1], sep);
      (p.0, p.1, p.2 + [s[|s| - 1]])
  }

  /** Splitting at the last separator recovers both sides when the tail has none. */
  lemma {:induction false} RPartitionJoin(head: string, sep: char, tail: string)
    requires sep !in tail
    ensures RPartition(head + [sep] + tail, sep) == (head, true, tail)
    decreases |tail|
  {
    var s := head + [sep] + tail;
    if tail == [] {
      assert s[..|s| - 1] == head;
    } else {
      var t := tail[..|tail| - 1];
      RPartitionJoin(head, sep, t);
      assert s[..|s| - 1] == head + [sep] + t;
      assert t + [s[|s| - 1]] == tail;
    }
  }

  lemma DigitsHaveNo(n: nat, c: char)
    requires !IsDigit(c)
    ensures c !in Digits(n)
  {
    var s := Digits(n);
    forall i | 0 <= i < |s|
      ensures s[i] != c
    {
      assert IsDigit(s[i]);
    }
  }

  lemma StrHasNo(v: int, c: char)
    requires !IsDigit(c) && c != '-'
    ensures c !in Str(v)
  {
    DigitsHaveNo(if v < 0 then -v else v, c);
  }

  /** `f"{id}:{version}"`, the key under which records are replicated. */
  function CombinedKey(id: string, version: int): string {
    id + ":" + Str(version)
  }

  /** `rpartition(":")` followed by `int`, as the follower splits such a key. */
  function SplitKey(key: string): Option<(string, int)> {
    var p := RPartition(key, ':');
    var v := ParseInt(p.2);
    if v.Some? then Some((p.0, v.value)) else None
  }

  /** Splitting inverts combining even when the id itself contains colons. */
  lemma SplitCombined(id: string, version: int)
    ensures SplitKey(CombinedKey(id, version)) == Some((id, version))
  {
    StrHasNo(version, ':');
    RPartitionJoin(id, ':', Str(version));
    ParseStr(version);
  }

  /** `f"{id}::{version}"`, the key under which pool counts are gossiped. */
  function PoolKey(id: string, version: int): string {
    id + "::" + Str(version)
  }

  /** `s.rpartition("::")`, if the separator occurs. */
  function RPartitionColons(s: string): Option<(string, string)> {
    if |s| < 2 then None
    else if s[|s| - 2] == ':' && s[|s| - 1] == ':' then Some((s[..|s| - 2], ""))
    else
      var p := RPartitionColons(s[..|s| - 1]);
      if p.None? then None else Some((p.value.0, p.value.1 + [s[|s| - 1]]))
  }

  function ParsePoolKey(s: string): Option<(string, int)> {
    var p := RPartitionColons(s);
    if p.None? then None
    else
      var v := ParseInt(p.value.1);
      if v.None? then None else Some((p.value.0, v.value))
  }

  lemma {:induction false} RPartitionColonsJoin(head: string, tail: string)
    requires ':' !in tail
    ensures RPartitionColons(head + "::" + tail) == Some((head, tail))
    decreases |tail|
  {
    var s := head + "::" + tail;
    if tail == [] {
      assert s[..|s| - 2] == head;
    } else {
      var t := tail[..|tail| - 1];
      RPartitionColonsJoin(head, t);
      assert s[..|s| - 1] == head + "::" + t;
      assert s[|s| - 1] == tail[|tail| - 1];
      assert t + [s[|s| - 1]] == tail;
    }
  }

  /** Parsing inverts formatting, whatever colons the id has. */
  lemma ParsePool(id: string, version: int)
    ensures ParsePoolKey(PoolKey(id, version)) == Some((id, version))
  {
    StrHasNo(version, ':');
    RPartitionColonsJoin(id, Str(version));
    ParseStr(version);
  }
}
