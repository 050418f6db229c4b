/** The few operations on Python `str` values the scripts rely on, over `seq<char>`. */
module Text {

  /** `s.startswith(prefix)` */
  predicate StartsWith(s: string, prefix: string) {
    |prefix| <= |s| && s[..|prefix|] == prefix
  }

  /** `s.endswith(suffix)` */
  predicate EndsWith(s: string, suffix: string) {
    |suffix| <= |s| && s[|s| - |suffix|..] == suffix
  }

  /** `sub in s`: `sub` occurs somewhere in `s` (the empty string occurs everywhere). */
  predicate Contains(s: string, sub: string)
    decreases |s|
  {
    StartsWith(s, sub) || (s != [] && Contains(s[1..], sub))
  }

  lemma {:induction false} ContainsAfter(a: string, t: string, sub: string)
    requires Contains(t, sub)
    ensures Contains(a + t, sub)
    decreases |a|
  {
    if a != [] {
      assert (a + t)[1..] == a[1..] + t;
      ContainsAfter(a[1..], t, sub);
      assert a + t != [] && Contains((a + t)[1..], sub);
    } else {
      assert a + t == t;
    }
  }

  /** Whatever stands between two pieces of text occurs in their concatenation. */
  lemma ContainsInfix(a: string, sub: string, c: string)
    ensures Contains(a + sub + c, sub)
  {
    assert StartsWith(sub + c, sub);
    ContainsAfter(a, sub + c, sub);
    assert a + sub + c == a + (sub + c);
  }

  /** Nothing but the empty string occurs in the empty string. */
  lemma ContainsInEmpty(sub: string)
    ensures Contains("", sub) <==> sub == ""
  {
  }

  /** A non-empty `sub` cannot occur in a string that lacks its first character. */
  lemma {:induction false} NotContainsWithout(s: string, sub: string, c: char)
    requires sub != [] && sub[0] == c
    requires c !in s
    ensures !Contains(s, sub)
    decreases |s|
  {
    if s != [] {
      assert c !in s[1..] by {
        forall k | 0 <= k < |s[1..]| ensures s[1..][k] != c {
          assert s[1..][k] == s[k + 1];
        }
      }
      NotContainsWithout(s[1..], sub, c);
      if |sub| <= |s| {
        assert s[..|sub|][0] == s[0] != c;
      }
    }
  }

  /** The pieces written one after the other, as an f-string or a chain of `+` builds a message. */
  function Concat(pieces: seq<string>): string
    decreases |pieces|
  {
    if pieces == [] then "" else pieces[0] + Concat(pieces[1..])
  }

  /** Every piece of a concatenation occurs in it. */
  lemma {:induction false} ConcatContains(pieces: seq<string>, k: nat)
    requires k < |pieces|
    ensures Contains(Concat(pieces), pieces[k])
    decreases k
  {
    if k == 0 {
      assert StartsWith(pieces[0] + Concat(pieces[1..]), pieces[0]);
    } else {
      ConcatContains(pieces[1..], k - 1);
      ContainsAfter(pieces[0], Concat(pieces[1..]), pieces[k]);
    }
  }

  /** A concatenation ends with its last piece. */
  lemma {:induction false} ConcatEndsWith(pieces: seq<string>)
    requires pieces != []
    ensures EndsWith(Concat(pieces), pieces[|pieces| - 1])
    decreases |pieces|
  {
    if |pieces| == 1 {
      assert Concat(pieces) == pieces[0] + "";
    } else {
      ConcatEndsWith(pieces[1..]);
      var rest := Concat(pieces[1..]);
      assert (pieces[0] + rest)[|pieces[0] + rest| - |pieces[|pieces| - 1]|..] == rest[|rest| - |pieces[|pieces| - 1]|..];
    }
  }

  /** `s.lstrip(c)` for one character `c`: drops every leading `c`. */
  function LStrip(s: string, c: char): (r: string)
    ensures |r| <= |s| && r == s[|s| - |r|..]
    ensures r == [] || r[0] != c
    ensures forall i :: 0 <= i < |s| - |r| ==> s[i] == c
    decreases |s|
  {
    if s != [] && s[0] == c then LStrip(s[1..], c) else s
  }

  /** `sep.join(parts)` */
  function Join(sep: string, parts: seq<string>): string
    decreases |parts|
  {
    if parts == [] then ""
    else if |parts| == 1 then parts[0]
    else parts[0] + sep + Join(sep, parts[1..])
  }

  /** Three strings put together start with the first and end with the last. */
  lemma FramedBy(head: string, middle: string, tail: string)
    ensures StartsWith(head + middle + tail, head)
    ensures EndsWith(head + middle + tail, tail)
  {
    var s := head + middle + tail;
    assert s[..|head|] == head;
    assert s[|s| - |tail|..] == tail;
  }

  /** A part in front of a non-empty list of parts is followed by one separator. */
  lemma JoinCons(sep: string, part: string, parts: seq<string>)
    requires parts != []
    ensures Join(sep, [part] + parts) == part + sep + Join(sep, parts)
  {
    assert ([part] + parts)[1..] == parts;
  }

  /** Joining two non-empty lists of parts puts one separator between their joins. */
  lemma {:induction false} JoinAppend(sep: string, a: seq<string>, b: seq<string>)
    requires a != [] && b != []
    ensures Join(sep, a + b) == Join(sep, a) + sep + Join(sep, b)
    decreases |a|
  {
    if |a| == 1 {
      assert (a + b)[1..] == b;
    } else {
      assert (a + b)[1..] == a[1..] + b;
      JoinAppend(sep, a[1..], b);
    }
  }

  /** `s.split(sep)` for a one-character separator: always at least one part. */
  function Split(s: string, sep: char): (r: seq<string>)
    ensures r != []
    decreases |s|
  {
    if s == [] then [""]
    else
      var rest := Split(s[1..], sep);
      if s[0] == sep then [""] + rest else [[s[0]] + rest[0]] + rest[1..]
  }

  lemma {:induction false} SplitLeadingPart(a: string, t: string, sep: char)
    requires sep !in a
    ensures Split(a + t, sep) == [a + Split(t, sep)[0]] + Split(t, sep)[1..]
    decreases |a|
  {
    if a == [] {
      assert a + t == t;
      var r := Split(t, sep);
      assert a + r[0] == r[0];
      assert [r[0]] + r[1..] == r;
    } else {
      assert (a + t)[0] == a[0];
      assert (a + t)[1..] == a[1..] + t;
      assert sep !in a[1..] by {
        forall k | 0 <= k < |a[1..]| ensures a[1..][k] != sep {
          assert a[1..][k] == a[k + 1];
        }
      }
      SplitLeadingPart(a[1..], t, sep);
      assert [a[0]] + (a[1..] + Split(t, sep)[0]) == a + Split(t, sep)[0];
    }
  }

  /** Splitting undoes joining when no part holds the separator. */
  lemma {:induction false} SplitJoin(parts: seq<string>, sep: char)
    requires parts != []
    requires forall p :: p in parts ==> sep !in p
    ensures Split(Join([sep], parts), sep) == parts
    decreases |parts|
  {
    if |parts| == 1 {
      SplitLeadingPart(parts[0], "", sep);
      assert parts[0] + "" == parts[0];
    } else {
      var p, rest := parts[0], parts[1..];
      var j := Join([sep], rest);
      assert Join([sep], parts) == p + ([sep] + j);
      SplitLeadingPart(p, [sep] + j, sep);
      assert ([sep] + j)[1..] == j;
      SplitJoin(rest, sep);
      assert p + "" == p;
      assert [p] + rest == parts;
    }
  }

  predicate IsDigit(c: char) {
    '0' <= c <= '9'
  }

  function DigitChar(d: nat): (c: char)
    requires d < 10
    ensures IsDigit(c) && c as int - '0' as int == d
  {
    ('0' as int + d) as char
  }

  /** `str(n)` for a non-negative int: its decimal digits, most significant first. */
  function NatToString(n: nat): (s: string)
    ensures s != []
    ensures forall i :: 0 <= i < |s| ==> IsDigit(s[i])
  {
    if n < 10 then [DigitChar(n)] else NatToString(n / 10) + [DigitChar(n % 10)]
  }

  /** `str(i)` for any int. */
  function IntToString(i: int): (s: string)
    ensures s != []
    ensures '\n' !in s
  {
    if i < 0 then "-" + NatToString(-i) else NatToString(i)
  }

  /** The number a string of decimal digits denotes. */
  function DecimalValue(s: string): nat
    requires forall i :: 0 <= i < |s| ==> IsDigit(s[i])
  {
    if s == [] then 0
    else
      assert IsDigit(s[|s| - 1]);
      DecimalValue(s[..|s| - 1]) * 10 + (s[|s| - 1] as int - '0' as int)
  }

  /** Reading back the decimal text of a number gives the number. */
  lemma {:induction false} DecimalValueOfNatToString(n: nat)
    ensures DecimalValue(NatToString(n)) == n
  {
    if n >= 10 {
      var s := NatToString(n);
      assert s[..|s| - 1] == NatToString(n / 10);
      DecimalValueOfNatToString(n / 10);
    }
  }
}
