/** The parts of java.lang.String the modelled code relies on: prefix and
    suffix tests, substring, splitting
    on a single literal character (String.split with a one-character
    pattern) and joining with a separator. */
module Strings {
  import opened Outcomes

  predicate StartsWith(s: string, prefix: string) {
    |prefix| <= |s| && s[..|prefix|] == prefix
  }

  predicate EndsWith(s: string, suffix: string) {
    |suffix| <= |s| && s[|s| - |suffix|..] == suffix
  }

  /** String.substring(begin, end), which throws unless 0 <= begin <= end <= length. */
  function Substring(s: string, begin: int, end: int): (r: Result<string>)
    ensures r.Ok? <==> 0 <= begin <= end <= |s|
    ensures r.Ok? ==> |r.value| == end - begin && forall i :: 0 <= i < |r.value| ==> r.value[i] == s[begin + i]
    ensures r.Err? ==> r.failure == Crash(IndexOutOfBounds)
  {
    if 0 <= begin <= end <= |s| then Ok(s[begin..end]) else Err(Crash(IndexOutOfBounds))
  }

  /** Every piece between occurrences of c, empty pieces included: the
      pieces of `s` before Java drops trailing empty strings. */
  function SplitAll(s: string, c: char): (r: seq<string>)
    ensures |r| >= 1
    ensures forall i :: 0 <= i < |r| ==> c !in r[i]
  {
    if |s| == 0 then [""]
    else
      var rest := SplitAll(s[1..], c);
      if s[0] == c then [""] + rest
      else [[s[0]] + rest[0]] + rest[1..]
  }

  /** The pieces with the trailing empty strings removed. */
  function DropTrailingEmpty(parts: seq<string>): (r: seq<string>)
    ensures r <= parts
    ensures |r| > 0 ==> r[|r| - 1] != ""
    ensures forall i :: |r| <= i < |parts| ==> parts[i] == ""
  {
    if |parts| > 0 && parts[|parts| - 1] == "" then DropTrailingEmpty(parts[..|parts| - 1])
    else parts
  }

  /** String.split with a pattern that matches exactly the character c:
      without any match the result is the string itself, otherwise the
      pieces between matches without the trailing empty ones. */
  function Split(s: string, c: char): (r: seq<string>)
    ensures forall i :: 0 <= i < |r| ==> c !in r[i]
  {
    if c !in s then [s] else DropTrailingEmpty(SplitAll(s, c))
  }

  /** The parts with `sep` between consecutive ones; "" for no parts. */
  function Join(parts: seq<string>, sep: string): string {
    if |parts| == 0 then ""
    else if |parts| == 1 then parts[0]
    else parts[0] + sep + Join(parts[1..], sep)
  }

  /** `stream().reduce((a, b) -> a + sep + b).get()`: the join, which fails
      with NoSuchElementException when there are no parts. */
  function ReduceJoin(parts: seq<string>, sep: string): (r: Result<string>)
    ensures r.Ok? <==> |parts| > 0
    ensures r.Ok? ==> r.value == Join(parts, sep)
  {
    if |parts| == 0 then Err(Crash(NoSuchElement)) else Ok(Join(parts, sep))
  }

  lemma {:induction false} JoinCons(p: string, rest: seq<string>, sep: string)
    requires |rest| >= 1
    ensures Join([p] + rest, sep) == p + sep + Join(rest, sep)
  {
    assert ([p] + rest)[1..] == rest;
  }

  /** Joining the pieces with the separator gives the string back. */
  lemma {:induction false} JoinSplitAll(s: string, c: char)
    ensures Join(SplitAll(s, c), [c]) == s
  {
    if |s| > 0 {
      var rest := SplitAll(s[1..], c);
      JoinSplitAll(s[1..], c);
      if s[0] == c {
        JoinCons("", rest, [c]);
        assert s == [c] + s[1..];
      } else {
        var parts := [[s[0]] + rest[0]] + rest[1..];
        if |rest| == 1 {
          assert parts == [[s[0]] + rest[0]];
          assert Join(rest, [c]) == rest[0];
        } else {
          JoinCons([s[0]] + rest[0], rest[1..], [c]);
          JoinCons(rest[0], rest[1..], [c]);
          assert [rest[0]] + rest[1..] == rest;
        }
        assert s == [s[0]] + s[1..];
      }
    }
  }

  lemma {:induction false} SplitAllPrefix(x: string, t: string, c: char)
    requires c !in x
    ensures SplitAll(x + t, c) == [x + SplitAll(t, c)[0]] + SplitAll(t, c)[1..]
  {
    var r := SplitAll(t, c);
    if |x| == 0 {
      assert x + t == t;
      assert x + r[0] == r[0];
      assert [r[0]] + r[1..] == r;
    } else {
      assert (x + t)[0] == x[0];
      assert (x + t)[1..] == x[1..] + t;
      SplitAllPrefix(x[1..], t, c);
      assert [x[0]] + (x[1..] + r[0]) == x + r[0];
    }
  }

  /** Splitting a join of separator-free parts gives the parts back. */
  lemma {:induction false} SplitAllJoin(parts: seq<string>, c: char)
    requires |parts| >= 1
    requires forall i :: 0 <= i < |parts| ==> c !in parts[i]
    ensures SplitAll(Join(parts, [c]), c) == parts
  {
    if |parts| == 1 {
      SplitAllPrefix(parts[0], "", c);
      assert parts[0] + "" == parts[0];
    } else {
      var tail := Join(parts[1..], [c]);
      SplitAllJoin(parts[1..], c);
      SplitAllPrefix(parts[0], [c] + tail, c);
      assert ([c] + tail)[0] == c && ([c] + tail)[1..] == tail;
      assert parts[0] + [c] + tail == parts[0] + ([c] + tail);
      assert parts[0] + "" == parts[0];
      assert [parts[0]] + parts[1..] == parts;
    }
  }

  /** Split undoes Join when no part holds the separator and the last part
      is not an empty string that Java would drop (a single part may be
      empty). */
  lemma SplitJoin(parts: seq<string>, c: char)
    requires |parts| >= 1
    requires forall i :: 0 <= i < |parts| ==> c !in parts[i]
    requires |parts| == 1 || parts[|parts| - 1] != ""
    ensures Split(Join(parts, [c]), c) == parts
  {
    if |parts| > 1 {
      var s := Join(parts, [c]);
      assert s == parts[0] + [c] + Join(parts[1..], [c]);
      assert s[|parts[0]|] == c;
      SplitAllJoin(parts, c);
    }
  }

  /** A piece with no separator splits to itself. */
  lemma SplitAllPlain(s: string, c: char)
    requires c !in s
    ensures SplitAll(s, c) == [s]
  {
    SplitAllPrefix(s, "", c);
    assert s + "" == s;
  }

  /** One step of SplitAll at a separator: an empty piece, then the pieces of the rest. */
  lemma SplitAllConsSeparator(t: string, c: char)
    ensures SplitAll([c] + t, c) == [""] + SplitAll(t, c)
  {
    assert ([c] + t)[0] == c && ([c] + t)[1..] == t;
  }

  /** One step of SplitAll at another character: it starts the first piece. */
  lemma SplitAllConsOther(ch: char, t: string, c: char)
    requires ch != c
    ensures SplitAll([ch] + t, c) == [[ch] + SplitAll(t, c)[0]] + SplitAll(t, c)[1..]
  {
    assert ([ch] + t)[0] == ch && ([ch] + t)[1..] == t;
  }

  lemma HeadOfAppend(l: seq<string>, rr: seq<string>, h: string)
    requires |l| >= 1
    ensures [h + (l + rr)[0]] + (l + rr)[1..] == ([h + l[0]] + l[1..]) + rr
  {
    assert (l + rr)[0] == l[0];
    assert (l + rr)[1..] == l[1..] + rr;
  }

  lemma SplitAllStep(h: char, rest: string, tail: string, c: char, rr: seq<string>)
    requires SplitAll(tail, c) == SplitAll(rest, c) + rr
    ensures SplitAll([h] + tail, c) == SplitAll([h] + rest, c) + rr
  {
    var l := SplitAll(rest, c);
    if h == c {
      SplitAllConsSeparator(tail, c);
      SplitAllConsSeparator(rest, c);
      assert [""] + (l + rr) == ([""] + l) + rr;
    } else {
      SplitAllConsOther(h, tail, c);
      SplitAllConsOther(h, rest, c);
      HeadOfAppend(l, rr, [h]);
    }
  }

  /** Splitting at one separator splits the two sides on their own. */
  lemma {:induction false} SplitAllAround(x: string, y: string, c: char)
    ensures SplitAll(x + [c] + y, c) == SplitAll(x, c) + SplitAll(y, c)
  {
    if |x| == 0 {
      assert x + [c] + y == [c] + y;
      SplitAllConsSeparator(y, c);
      assert SplitAll("", c) == [""];
    } else {
      var rest := x[1..];
      assert x + [c] + y == [x[0]] + (rest + [c] + y);
      assert x == [x[0]] + rest;
      SplitAllAround(rest, y, c);
      SplitAllStep(x[0], rest, rest + [c] + y, c, SplitAll(y, c));
    }
  }

  lemma {:induction false} JoinSnoc(init: seq<string>, last: string, sep: string)
    requires |init| > 0
    ensures Join(init + [last], sep) == Join(init, sep) + sep + last
  {
    if |init| == 1 {
      assert init + [last] == [init[0], last];
      assert [init[0], last][1..] == [last];
    } else {
      JoinSnoc(init[1..], last, sep);
      assert (init + [last])[1..] == init[1..] + [last];
    }
  }

  /** Java's split of a join ends with the join's last part when that
      part is not empty and holds no separator. */
  lemma LastPieceOfJoin(parts: seq<string>, c: char)
    requires |parts| > 0
    requires parts[|parts| - 1] != "" && c !in parts[|parts| - 1]
    ensures |Split(Join(parts, [c]), c)| > 0
    ensures Split(Join(parts, [c]), c)[|Split(Join(parts, [c]), c)| - 1] == parts[|parts| - 1]
  {
    var last := parts[|parts| - 1];
    if |parts| > 1 {
      var init := parts[..|parts| - 1];
      assert parts == init + [last];
      JoinSnoc(init, last, [c]);
      var s := Join(init, [c]) + [c] + last;
      assert s[|Join(init, [c])|] == c;
      SplitAllAround(Join(init, [c]), last, c);
      SplitAllPlain(last, c);
    }
  }

  /** A string of separators only splits into empty pieces. */
  lemma {:induction false} SplitAllSeparatorsOnly(s: string, c: char)
    requires forall i :: 0 <= i < |s| ==> s[i] == c
    ensures forall k :: 0 <= k < |SplitAll(s, c)| ==> SplitAll(s, c)[k] == ""
  {
    if |s| > 0 {
      SplitAllSeparatorsOnly(s[1..], c);
    }
  }

  /** Only empty pieces leave nothing once the trailing ones are dropped. */
  lemma {:induction false} DropAllEmpty(parts: seq<string>)
    requires forall k :: 0 <= k < |parts| ==> parts[k] == ""
    ensures DropTrailingEmpty(parts) == []
  {
    if |parts| > 0 {
      DropAllEmpty(parts[..|parts| - 1]);
    }
  }

  /** Java's split of a non-empty string of separators only is empty. */
  lemma SplitSeparatorsOnly(s: string, c: char)
    requires |s| > 0 && forall i :: 0 <= i < |s| ==> s[i] == c
    ensures Split(s, c) == []
  {
    assert s[0] == c;
    SplitAllSeparatorsOnly(s, c);
    DropAllEmpty(SplitAll(s, c));
  }

  /** How often c occurs in s. */
  function Occurrences(s: string, c: char): nat {
    if |s| == 0 then 0 else (if s[0] == c then 1 else 0) + Occurrences(s[1..], c)
  }

  /** There is one more piece than there are separators. */
  lemma {:induction false} SplitAllCount(s: string, c: char)
    ensures |SplitAll(s, c)| == Occurrences(s, c) + 1
  {
    if |s| > 0 {
      SplitAllCount(s[1..], c);
    }
  }
}
