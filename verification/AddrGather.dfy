/** The address gather of server/unimosserver.cpp (gatherIP) and its parser
    IPTOOL::split of utils/stringtool.h. */
module AddrGather {
  import opened Outcomes

  const NUL := '\0'
  const SUBSTR := 100          // size of split's copy buffer
  const MSG_PADDING_LEN := 200

  /** First position at or after i that holds c, or the length. */
  function IndexOf(s: seq<char>, i: nat, c: char): (j: nat)
    requires i <= |s|
    ensures i <= j <= |s| && (j < |s| ==> s[j] == c)
    decreases |s| - i
  {
    if i == |s| || s[i] == c then i else IndexOf(s, i + 1, c)
  }

  /** Nothing before it holds c, and that makes it unique. */
  lemma {:induction false} IndexOfFirst(s: seq<char>, i: nat, c: char)
    requires i <= |s|
    ensures forall k :: i <= k < IndexOf(s, i, c) ==> s[k] != c
    decreases |s| - i
  {
    if i < |s| && s[i] != c { IndexOfFirst(s, i + 1, c); }
  }

  lemma IndexOfIs(s: seq<char>, i: nat, j: nat, c: char)
    requires i <= j <= |s| && (j < |s| ==> s[j] == c) && forall k :: i <= k < j ==> s[k] != c
    ensures IndexOf(s, i, c) == j
  {
    IndexOfFirst(s, i, c);
  }

  /** std::string of a char buffer: up to the first NUL. */
  function CString(s: seq<char>): string { s[..IndexOf(s, 0, NUL)] }

  function Prepend(xs: seq<string>, r: Result<seq<string>>): Result<seq<string>> {
    if r.Ok? then Ok(xs + r.value) else r
  }

  lemma PrependFacts(xs: seq<string>, y: string, r: Result<seq<string>>)
    ensures Prepend([], r) == r
    ensures Prepend(xs + [y], r) == Prepend(xs, Prepend([y], r))
  {
    if r.Ok? { assert xs + [y] + r.value == xs + ([y] + r.value) && [] + r.value == r.value; }
  }

  /** The records of the text from position i on: each starts after an h and
      ends before the next e (or the end). Empty records are skipped; a record
      that does not fit the copy buffer overruns it. */
  function Parse(s: seq<char>, i: nat, h: char, e: char): Result<seq<string>>
    requires i <= |s|
    decreases |s| - i, 1
  {
    var p := IndexOf(s, i, h);
    if p == |s| then Ok([]) else AfterH(s, p + 1, IndexOf(s, p + 1, e), h, e)
  }

  /** ... of the text whose first record is a..j. */
  function AfterH(s: seq<char>, a: nat, j: nat, h: char, e: char): Result<seq<string>>
    requires a <= j <= |s|
    decreases |s| - a, 2
  {
    if j == a then Parse(s, j, h, e)
    else if j - a >= SUBSTR then Err(CopyOverrun)
    else Prepend([CString(s[a..j])], Parse(s, j, h, e))
  }

  lemma ParseUnfold(s: seq<char>, i: nat, p: nat, j: nat, h: char, e: char)
    requires i <= |s| && p == IndexOf(s, i, h) < |s| && j == IndexOf(s, p + 1, e)
    ensures Parse(s, i, h, e) == AfterH(s, p + 1, j, h, e)
  {
  }

  method Split(s: seq<char>, separatorH: char, separatorE: char) returns (r: Result<seq<string>>)
    ensures r == Parse(s, 0, separatorH, separatorE)
  {
    var result := [];
    var i, flag := 0, 0;
    PrependFacts([], "", Parse(s, 0, separatorH, separatorE));
    while i != |s|
      invariant i <= |s| && (flag == 0 || (flag == 1 && i == |s|))
      invariant Parse(s, 0, separatorH, separatorE) == Prepend(result, Parse(s, i, separatorH, separatorE))
      decreases |s| - i
    {
      ghost var i0 := i;
      while i != |s| && flag == 0
        invariant i0 <= i <= |s| && (flag == 0 || flag == 1)
        invariant flag == 0 ==> IndexOf(s, i0, separatorH) == IndexOf(s, i, separatorH)
        invariant flag == 1 ==> i > i0 && IndexOf(s, i0, separatorH) == i - 1
        decreases |s| - i, 1 - flag
      {
        if s[i] == separatorH {
          flag := 1;
          i := i + 1;
          break;
        } else {
          i := i + 1;
        }
      }
      var j := i;
      ghost var found := flag == 1;
      while j != |s| && flag == 1
        invariant i <= j <= |s|
        invariant found ==> IndexOf(s, i, separatorE) == IndexOf(s, j, separatorE)
        invariant if found then flag == 1 else flag == 0 && j == i
        decreases |s| - j
      {
        if s[j] == separatorE {
          flag := 0;
          break;
        }
        if flag == 1 { j := j + 1; }
      }
      if found { ParseUnfold(s, i0, i - 1, j, separatorH, separatorE); }
      if i != j {
        if j - i + 1 > SUBSTR { return Err(CopyOverrun); }
        PrependFacts(result, CString(s[i..j]), Parse(s, j, separatorH, separatorE));
        result := result + [CString(s[i..j])];
        i := j;
      }
    }
    assert result + [] == result;
    r := Ok(result);
  }

  // ------------------------------------------------------------------
  // What split can return
  // ------------------------------------------------------------------

  /** After every h something other than a NUL follows. */
  ghost predicate Followed(s: seq<char>, h: char) {
    forall k :: 0 <= k < |s| && s[k] == h ==> k + 1 < |s| && s[k + 1] != NUL
  }

  predicate Gatherable(a: string) { 0 < |a| < SUBSTR && 'E' !in a }

  /** Whatever comes back is shorter than 100 characters and free of 'E'; it is
      non-empty if a NUL never follows an 'H'. */
  lemma {:induction false} ParsedShape(s: seq<char>, i: nat)
    requires i <= |s| && Parse(s, i, 'H', 'E').Ok?
    ensures forall a :: a in Parse(s, i, 'H', 'E').value ==> |a| < SUBSTR && 'E' !in a
    ensures Followed(s, 'H') ==> forall a :: a in Parse(s, i, 'H', 'E').value ==> Gatherable(a)
    decreases |s| - i
  {
    var p := IndexOf(s, i, 'H');
    if p < |s| {
      var j := IndexOf(s, p + 1, 'E');
      ParsedShape(s, j);
      if j != p + 1 {
        assert s[p + 1..j][0] == s[p + 1];
        IndexOfFirst(s, p + 1, 'E');
      }
    }
  }

  // ------------------------------------------------------------------
  // Messages
  // ------------------------------------------------------------------

  ghost predicate Clean(s: seq<char>, c: char) { c !in s }

  function Record(a: string, pad: seq<char>): seq<char> { ['H'] + a + ['E'] + pad }

  function Gathered(addrs: seq<string>, pads: seq<seq<char>>): seq<char>
    requires |addrs| == |pads|
  {
    if addrs == [] then [] else Record(addrs[0], pads[0]) + Gathered(addrs[1..], pads[1..])
  }

  /** Every 'H' of the padding is closed at once. */
  ghost predicate Inert(pad: seq<char>) {
    forall k :: 0 <= k < |pad| && pad[k] == 'H' ==> k + 1 < |pad| && pad[k + 1] == 'E'
  }

  /** Addresses are C strings. */
  ghost predicate Messages(addrs: seq<string>, pads: seq<seq<char>>) {
    && |addrs| == |pads|
    && forall k :: 0 <= k < |addrs| ==> Clean(addrs[k], NUL)
  }

  lemma {:induction false} GatheredFollowed(addrs: seq<string>, pads: seq<seq<char>>)
    requires Messages(addrs, pads) && forall k :: 0 <= k < |pads| ==> Inert(pads[k])
    ensures Followed(Gathered(addrs, pads), 'H')
    decreases |addrs|
  {
    if addrs != [] {
      GatheredFollowed(addrs[1..], pads[1..]);
      var a, pad, rest := addrs[0], pads[0], Gathered(addrs[1..], pads[1..]);
      var rec := Record(a, pad);
      assert Clean(a, NUL) && Inert(pad);
      forall k | 0 <= k < |rec| && rec[k] == 'H' ensures k + 1 < |rec| && rec[k + 1] != NUL {
        if k == |a| { assert rec[k + 1] == 'E'; }
        else if k < |a| { assert rec[k + 1] == a[k]; }
        else if k > |a| + 1 { assert rec[k] == pad[k - (|a| + 2)] && rec[k + 1] == pad[k + 1 - (|a| + 2)]; }
      }
      forall k | 0 <= k < |rec + rest| && (rec + rest)[k] == 'H'
        ensures k + 1 < |rec + rest| && (rec + rest)[k + 1] != NUL
      {
        if k < |rec| { assert (rec + rest)[k + 1] == rec[k + 1]; } else { assert (rec + rest)[k] == rest[k - |rec|]; }
      }
    }
  }

  /** t holds s from position n on. */
  ghost predicate EndsWith(t: seq<char>, n: nat, s: seq<char>) {
    |t| == n + |s| && forall k :: 0 <= k < |s| ==> t[n + k] == s[k]
  }

  lemma {:induction false} IndexOfShift(t: seq<char>, n: nat, s: seq<char>, i: nat, c: char)
    requires EndsWith(t, n, s) && i <= |s|
    ensures IndexOf(t, n + i, c) == n + IndexOf(s, i, c)
    decreases |s| - i
  {
    if i < |s| {
      assert t[n + i] == s[i];
      if s[i] != c { IndexOfShift(t, n, s, i + 1, c); }
    }
  }

  /** Parsing does not depend on what precedes the position. */
  lemma {:induction false} ParseShift(t: seq<char>, n: nat, s: seq<char>, i: nat, h: char, e: char)
    requires EndsWith(t, n, s) && i <= |s|
    ensures Parse(t, n + i, h, e) == Parse(s, i, h, e)
    decreases |s| - i
  {
    var p := IndexOf(s, i, h);
    IndexOfShift(t, n, s, i, h);
    if p < |s| {
      var j := IndexOf(s, p + 1, e);
      IndexOfShift(t, n, s, p + 1, e);
      ParseShift(t, n, s, j, h, e);
      ParseUnfold(s, i, p, j, h, e);
      ParseUnfold(t, n + i, n + p, n + j, h, e);
      assert t[n + p + 1..n + j] == s[p + 1..j];
    }
  }

  /** Text without h is skipped. */
  lemma {:induction false} ParseSkips(s: seq<char>, i: nat, k: nat, h: char, e: char)
    requires i <= k <= |s| && forall m :: i <= m < k ==> s[m] != h
    ensures Parse(s, i, h, e) == Parse(s, k, h, e)
    decreases k - i
  {
    if i < k { ParseSkips(s, i + 1, k, h, e); }
  }

  lemma CStringClean(a: string)
    requires Clean(a, NUL)
    ensures CString(a) == a
  {
    forall k | 0 <= k < |a| ensures a[k] != NUL { assert a[k] in a; }
    IndexOfIs(a, 0, |a|, NUL);
  }

  // ------------------------------------------------------------------
  // Scanning from the front of a text
  // ------------------------------------------------------------------

  /** Parsing outside a record, and inside one that has just been opened. */
  function Closed(s: seq<char>): Result<seq<string>> { Parse(s, 0, 'H', 'E') }
  function Open(s: seq<char>): Result<seq<string>> { AfterH(s, 0, IndexOf(s, 0, 'E'), 'H', 'E') }

  lemma ParseDrop(s: seq<char>, i: nat)
    requires i <= |s|
    ensures Parse(s, i, 'H', 'E') == Closed(s[i..])
  {
    assert EndsWith(s, i, s[i..]);
    ParseShift(s, i, s[i..], 0, 'H', 'E');
  }

  lemma ClosedStep(s: seq<char>, p: nat)
    requires p == IndexOf(s, 0, 'H')
    ensures Closed(s) == if p == |s| then Ok([]) else Open(s[p + 1..])
  {
    if p < |s| {
      var t := s[p + 1..];
      var j := IndexOf(t, 0, 'E');
      assert EndsWith(s, p + 1, t);
      IndexOfShift(s, p + 1, t, 0, 'E');
      ParseUnfold(s, 0, p, p + 1 + j, 'H', 'E');
      AfterShift(s, p + 1, t, j);
    }
  }

  lemma AfterShift(s: seq<char>, n: nat, t: seq<char>, j: nat)
    requires EndsWith(s, n, t) && j <= |t|
    ensures AfterH(s, n, n + j, 'H', 'E') == AfterH(t, 0, j, 'H', 'E')
  {
    ParseShift(s, n, t, j, 'H', 'E');
    assert s[n..n + j] == t[0..j];
  }

  lemma OpenStep(s: seq<char>, j: nat)
    requires j == IndexOf(s, 0, 'E')
    ensures Open(s)
      == if j == 0 then Closed(s)
         else if j >= SUBSTR then Err(CopyOverrun)
         else Prepend([CString(s[..j])], Closed(s[j..]))
  {
    ParseDrop(s, j);
    assert s[0..j] == s[..j];
  }

  lemma ClosedSkips(x: seq<char>, s: seq<char>)
    requires 'H' !in x
    ensures Closed(x + s) == Closed(s)
  {
    assert forall m :: 0 <= m < |x| ==> (x + s)[m] == x[m];
    ParseSkips(x + s, 0, |x|, 'H', 'E');
    ParseDrop(x + s, |x|);
    assert (x + s)[|x|..] == s;
  }

  /** A record body up to its 'E', then padding, then anything. */
  lemma OpenBody(body: seq<char>, pad: seq<char>, rest: seq<char>)
    requires 'E' !in body && body != []
    ensures Open(body + ['E'] + pad + rest) ==
      if |body| >= SUBSTR then Err(CopyOverrun) else Prepend([CString(body)], Closed(pad + rest))
  {
    var s := body + ['E'] + pad + rest;
    assert forall k :: 0 <= k < |body| ==> s[k] == body[k];
    IndexOfIs(s, 0, |body|, 'E');
    OpenStep(s, |body|);
    assert s[..|body|] == body && s[|body|..] == ['E'] + (pad + rest);
    ClosedSkips(['E'], pad + rest);
  }

  lemma ClosedRecord(a: string, pad: seq<char>, rest: seq<char>)
    requires Gatherable(a) && Clean(a, NUL)
    ensures Closed(Record(a, pad) + rest) == Prepend([a], Closed(pad + rest))
  {
    var s := Record(a, pad) + rest;
    assert s[0] == 'H';
    ClosedStep(s, 0);
    assert s[1..] == a + ['E'] + pad + rest;
    OpenBody(a, pad, rest);
    CStringClean(a);
  }

  /** A record left open by the padding before it swallows the next message's
      'H' and address. */
  lemma OpenRecord(tail: seq<char>, a: string, pad: seq<char>, rest: seq<char>)
    requires 'E' !in tail && 'E' !in a
    ensures Open(tail + (Record(a, pad) + rest)) ==
      if |tail| + 1 + |a| >= SUBSTR then Err(CopyOverrun) else Prepend([CString(tail + ['H'] + a)], Closed(pad + rest))
  {
    var body := tail + ['H'] + a;
    assert tail + (Record(a, pad) + rest) == body + ['E'] + pad + rest;
    OpenBody(body, pad, rest);
  }

  /** The first 'H' of the padding decides how the scan goes on. */
  lemma ClosedPad(pad: seq<char>, rest: seq<char>, p: nat, j: nat)
    requires p == IndexOf(pad, 0, 'H') && j == (if p < |pad| then IndexOf(pad, p + 1, 'E') else p)
    ensures p == |pad| ==> Closed(pad + rest) == Closed(rest)
    ensures p < |pad| && j == |pad| ==> 'E' !in pad[p + 1..] && Closed(pad + rest) == Open(pad[p + 1..] + rest)
    ensures p < |pad| && j < |pad| && j == p + 1 ==> Closed(pad + rest) == Closed(pad[j..] + rest)
    ensures p < |pad| && j < |pad| && j >= p + 1 + SUBSTR ==> Closed(pad + rest) == Err(CopyOverrun)
    ensures p < |pad| && j < |pad| && p + 1 < j < p + 1 + SUBSTR ==>
      Closed(pad + rest) == Prepend([CString(pad[p + 1..j])], Closed(pad[j..] + rest))
  {
    var s := pad + rest;
    IndexOfFirst(pad, 0, 'H');
    if p == |pad| {
      ClosedSkips(pad, rest);
    } else {
      var t := pad[p + 1..];
      assert forall k :: 0 <= k < p ==> s[k] == pad[k];
      IndexOfIs(s, 0, p, 'H');
      ClosedStep(s, p);
      assert s[p + 1..] == t + rest;
      IndexOfFirst(pad, p + 1, 'E');
      assert forall k :: 0 <= k < j - (p + 1) ==> t[k] == pad[p + 1 + k];
      if j < |pad| {
        var n := j - (p + 1);
        assert forall k :: 0 <= k < n ==> (t + rest)[k] == t[k];
        assert (t + rest)[n] == pad[j];
        IndexOfIs(t + rest, 0, n, 'E');
        OpenStep(t + rest, n);
        assert (t + rest)[..n] == pad[p + 1..j] && (t + rest)[n..] == pad[j..] + rest;
      }
    }
  }

  // ------------------------------------------------------------------
  // When padding does no harm
  // ------------------------------------------------------------------

  /** Padding before the remaining messages: every record it opens is closed at
      once, except that a last one left open may come to the next address by
      accident, or be empty at the very end. */
  predicate Harmless(pad: seq<char>, addrs: seq<string>)
    decreases |pad|
  {
    var p := IndexOf(pad, 0, 'H');
    if p == |pad| then true
    else
      var j := IndexOf(pad, p + 1, 'E');
      if j == |pad| then HarmlessOpen(pad[p + 1..], addrs)
      else j == p + 1 && Harmless(pad[j..], addrs)
  }

  predicate HarmlessOpen(tail: seq<char>, addrs: seq<string>) {
    if addrs == [] then tail == []
    else |tail| + 1 + |addrs[0]| < SUBSTR && CString(tail + ['H'] + addrs[0]) == addrs[0]
  }

  predicate AllHarmless(addrs: seq<string>, pads: seq<seq<char>>)
    requires |addrs| == |pads|
  {
    forall k :: 0 <= k < |pads| ==> Harmless(pads[k], addrs[k + 1..])
  }

  ghost predicate AllGatherable(addrs: seq<string>) {
    forall k :: 0 <= k < |addrs| ==> Gatherable(addrs[k]) && Clean(addrs[k], NUL)
  }

  lemma PrependIs(x: string, r: Result<seq<string>>, all: seq<string>)
    requires all != []
    ensures Prepend([x], r) == Ok(all) <==> x == all[0] && r == Ok(all[1..])
    ensures r.Ok? ==> Prepend([x], r).Ok? && |Prepend([x], r).value| == 1 + |r.value|
    ensures r.Err? ==> Prepend([x], r).Err?
  {
    if r.Ok? {
      assert ([x] + r.value)[1..] == r.value && all == [all[0]] + all[1..];
    }
  }

  /** No message is lost: at least one entry comes back for each. */
  lemma {:induction false} AtLeast(pad: seq<char>, addrs: seq<string>, pads: seq<seq<char>>)
    requires |addrs| == |pads| && AllGatherable(addrs) && Closed(pad + Gathered(addrs, pads)).Ok?
    ensures |Closed(pad + Gathered(addrs, pads)).value| >= |addrs|
    decreases |addrs|, |pad|
  {
    var g := Gathered(addrs, pads);
    var p := IndexOf(pad, 0, 'H');
    var j := if p < |pad| then IndexOf(pad, p + 1, 'E') else p;
    ClosedPad(pad, g, p, j);
    if p < |pad| && j < |pad| {
      if Closed(pad[j..] + g).Ok? { AtLeast(pad[j..], addrs, pads); }
    } else if addrs != [] {
      var a, rest := addrs[0], Gathered(addrs[1..], pads[1..]);
      assert Gatherable(a) && Clean(a, NUL);
      if p == |pad| { ClosedRecord(a, pads[0], rest); } else { OpenRecord(pad[p + 1..], a, pads[0], rest); }
      if Closed(pads[0] + rest).Ok? { AtLeast(pads[0], addrs[1..], pads[1..]); }
    }
  }

  /** Scanning padding and then messages gives exactly their addresses if and
      only if all of that padding is harmless. */
  lemma {:induction false} PaddingIff(pad: seq<char>, addrs: seq<string>, pads: seq<seq<char>>)
    requires |addrs| == |pads| && AllGatherable(addrs)
    ensures Closed(pad + Gathered(addrs, pads)) == Ok(addrs) <==> Harmless(pad, addrs) && AllHarmless(addrs, pads)
    decreases |addrs|, |pad|
  {
    var g := Gathered(addrs, pads);
    var p := IndexOf(pad, 0, 'H');
    var j := if p < |pad| then IndexOf(pad, p + 1, 'E') else p;
    ClosedPad(pad, g, p, j);
    if p < |pad| && j < |pad| {
      if j == p + 1 {
        PaddingIff(pad[j..], addrs, pads);
      } else if Closed(pad[j..] + g).Ok? {
        AtLeast(pad[j..], addrs, pads);
      }
    } else if addrs == [] {
      NoMessages(pad, p, j);
    } else {
      NextMessage(pad, addrs, pads, p, j);
      PaddingIff(pads[0], addrs[1..], pads[1..]);
    }
  }

  lemma NoMessages(pad: seq<char>, p: nat, j: nat)
    requires p == IndexOf(pad, 0, 'H') && j == (if p < |pad| then IndexOf(pad, p + 1, 'E') else p) && j == |pad|
    ensures Closed(pad + []) == Ok([]) <==> Harmless(pad, [])
  {
    ClosedPad(pad, [], p, j);
    if p < |pad| {
      var tail := pad[p + 1..];
      assert tail + [] == tail;
      IndexOfIs(tail, 0, |tail|, 'E');
      OpenStep(tail, |tail|);
    }
  }

  lemma NextMessage(pad: seq<char>, addrs: seq<string>, pads: seq<seq<char>>, p: nat, j: nat)
    requires |addrs| == |pads| && AllGatherable(addrs) && addrs != []
    requires p == IndexOf(pad, 0, 'H') && j == (if p < |pad| then IndexOf(pad, p + 1, 'E') else p) && j == |pad|
    ensures Closed(pad + Gathered(addrs, pads)) == Ok(addrs) <==>
      Harmless(pad, addrs) && Closed(pads[0] + Gathered(addrs[1..], pads[1..])) == Ok(addrs[1..])
    ensures AllHarmless(addrs, pads) <==> Harmless(pads[0], addrs[1..]) && AllHarmless(addrs[1..], pads[1..])
  {
    var g, a, rest := Gathered(addrs, pads), addrs[0], Gathered(addrs[1..], pads[1..]);
    assert Gatherable(a) && Clean(a, NUL);
    ClosedPad(pad, g, p, j);
    if p == |pad| {
      ClosedRecord(a, pads[0], rest);
      PrependIs(a, Closed(pads[0] + rest), addrs);
    } else {
      OpenRecord(pad[p + 1..], a, pads[0], rest);
      PrependIs(CString(pad[p + 1..] + ['H'] + a), Closed(pads[0] + rest), addrs);
    }
    HarmlessTail(addrs, pads);
  }

  lemma HarmlessTail(addrs: seq<string>, pads: seq<seq<char>>)
    requires |addrs| == |pads| && addrs != []
    ensures AllHarmless(addrs, pads) <==> Harmless(pads[0], addrs[1..]) && AllHarmless(addrs[1..], pads[1..])
  {
    var as', ps' := addrs[1..], pads[1..];
    assert forall k :: 0 <= k < |ps'| ==> as'[k + 1..] == addrs[k + 2..] && ps'[k] == pads[k + 1];
    if Harmless(pads[0], as') && AllHarmless(as', ps') {
      forall k | 0 <= k < |pads| ensures Harmless(pads[k], addrs[k + 1..]) {
        if k > 0 { assert Harmless(ps'[k - 1], as'[k..]); }
      }
    }
    if AllHarmless(addrs, pads) {
      forall k | 0 <= k < |ps'| ensures Harmless(ps'[k], as'[k + 1..]) { assert Harmless(pads[k + 1], addrs[k + 2..]); }
    }
  }

  lemma {:induction false} InertIsHarmless(pad: seq<char>, addrs: seq<string>)
    requires Inert(pad)
    ensures Harmless(pad, addrs)
    decreases |pad|
  {
    var p := IndexOf(pad, 0, 'H');
    if p < |pad| {
      assert pad[p + 1] == 'E';
      assert IndexOf(pad, p + 1, 'E') == p + 1;
      var t := pad[p + 1..];
      assert forall k :: 0 <= k < |t| ==> t[k] == pad[p + 1 + k];
      InertIsHarmless(t, addrs);
    }
  }

  // ------------------------------------------------------------------
  // When the list comes back
  // ------------------------------------------------------------------

  /** For non-empty addresses below 100 characters without 'E': exactly when the
      bytes left over in every rank's buffer are harmless. */
  lemma LeftoverIff(addrs: seq<string>, pads: seq<seq<char>>)
    requires |addrs| == |pads| && AllGatherable(addrs)
    ensures Parse(Gathered(addrs, pads), 0, 'H', 'E') == Ok(addrs) <==> AllHarmless(addrs, pads)
  {
    PaddingIff([], addrs, pads);
    assert [] + Gathered(addrs, pads) == Gathered(addrs, pads);
  }

  lemma RoundTrip(addrs: seq<string>, pads: seq<seq<char>>)
    requires |addrs| == |pads| && AllGatherable(addrs) && forall k :: 0 <= k < |pads| ==> Inert(pads[k])
    ensures Parse(Gathered(addrs, pads), 0, 'H', 'E') == Ok(addrs)
  {
    forall k | 0 <= k < |pads| ensures Harmless(pads[k], addrs[k + 1..]) { InertIsHarmless(pads[k], addrs[k + 1..]); }
    LeftoverIff(addrs, pads);
  }

  /** For inert leftover bytes: exactly the lists of non-empty addresses below
      100 characters without 'E' come back, in order. */
  lemma GatherIff(addrs: seq<string>, pads: seq<seq<char>>)
    requires Messages(addrs, pads) && forall k :: 0 <= k < |pads| ==> Inert(pads[k])
    ensures Parse(Gathered(addrs, pads), 0, 'H', 'E') == Ok(addrs) <==>
      forall k :: 0 <= k < |addrs| ==> Gatherable(addrs[k])
  {
    if Parse(Gathered(addrs, pads), 0, 'H', 'E') == Ok(addrs) {
      GatheredFollowed(addrs, pads);
      ParsedShape(Gathered(addrs, pads), 0);
      forall k | 0 <= k < |addrs| ensures Gatherable(addrs[k]) {
        assert addrs[k] in addrs;
      }
    } else if forall k :: 0 <= k < |addrs| ==> Gatherable(addrs[k]) {
      RoundTrip(addrs, pads);
    }
  }

  // ------------------------------------------------------------------
  // gatherIP
  // ------------------------------------------------------------------

  /** sprintf of "H%sE" and its NUL into an uninitialised buffer; the length
      check of the source lets addresses of 198 to 200 characters through,
      which overrun it. */
  function SendMessage(endpoint: string, junk: seq<char>): (r: Result<seq<char>>)
    requires |junk| == MSG_PADDING_LEN
    ensures r.Ok? ==> |r.value| == MSG_PADDING_LEN
  {
    if |endpoint| > MSG_PADDING_LEN then Err(AddressTooLong)
    else if |endpoint| + 3 > MSG_PADDING_LEN then Err(CopyOverrun)
    else Ok(Record(endpoint, [NUL] + junk[|endpoint| + 3..]))
  }

  /** MPI_Gather: the ranks' buffers in rank order. */
  function GatherAll(endpoints: seq<string>, junk: seq<seq<char>>): (r: Result<seq<char>>)
    requires |endpoints| == |junk| && forall k :: 0 <= k < |junk| ==> |junk[k]| == MSG_PADDING_LEN
  {
    if endpoints == [] then Ok([])
    else
      var first := SendMessage(endpoints[0], junk[0]);
      var rest := GatherAll(endpoints[1..], junk[1..]);
      if first.Err? then first else if rest.Err? then rest else Ok(first.value + rest.value)
  }

  function PadOf(endpoint: string, junk: seq<char>): seq<char>
    requires |endpoint| + 3 <= |junk|
  {
    [NUL] + junk[|endpoint| + 3..]
  }

  lemma {:induction false} GatherAllIsGathered(endpoints: seq<string>, junk: seq<seq<char>>, pads: seq<seq<char>>)
    requires |endpoints| == |junk| == |pads| && forall k :: 0 <= k < |junk| ==> |junk[k]| == MSG_PADDING_LEN
    requires forall k :: 0 <= k < |endpoints| ==> |endpoints[k]| < SUBSTR && pads[k] == PadOf(endpoints[k], junk[k])
    ensures GatherAll(endpoints, junk) == Ok(Gathered(endpoints, pads))
    decreases |endpoints|
  {
    if endpoints != [] { GatherAllIsGathered(endpoints[1..], junk[1..], pads[1..]); }
  }

  /** The leftover bytes of the ranks' buffers. */
  function PadsOf(endpoints: seq<string>, junk: seq<seq<char>>): (pads: seq<seq<char>>)
    requires |endpoints| == |junk| && forall k :: 0 <= k < |junk| ==> |junk[k]| == MSG_PADDING_LEN
    requires forall k :: 0 <= k < |endpoints| ==> |endpoints[k]| < SUBSTR
    ensures |pads| == |endpoints|
  {
    seq(|endpoints|, k requires 0 <= k < |endpoints| => PadOf(endpoints[k], junk[k]))
  }

  /** gatherIP: every rank ends up with all server addresses in rank order
      exactly when the uninitialised bytes behind each message are harmless,
      which nothing in the source ensures. */
  lemma GatherIP(endpoints: seq<string>, junk: seq<seq<char>>)
    requires |endpoints| == |junk| && forall k :: 0 <= k < |junk| ==> |junk[k]| == MSG_PADDING_LEN
    requires AllGatherable(endpoints) && forall k :: 0 <= k < |endpoints| ==> |endpoints[k]| < SUBSTR
    ensures GatherAll(endpoints, junk).Ok?
    ensures Parse(GatherAll(endpoints, junk).value, 0, 'H', 'E') == Ok(endpoints) <==>
      AllHarmless(endpoints, PadsOf(endpoints, junk))
  {
    GatherAllIsGathered(endpoints, junk, PadsOf(endpoints, junk));
    LeftoverIff(endpoints, PadsOf(endpoints, junk));
  }

  /** Leftover bytes that end in "Hx" turn the one address of a whole 200-byte
      message into a different list. */
  lemma LeftoverBreaksGather(junk: seq<char>)
    requires |junk| == MSG_PADDING_LEN && 'H' !in junk[4..198] && junk[198] == 'H' && junk[199] == 'x'
    ensures GatherAll(["a"], [junk]).Ok? && |GatherAll(["a"], [junk]).value| == MSG_PADDING_LEN
    ensures Parse(GatherAll(["a"], [junk]).value, 0, 'H', 'E') != Ok(["a"])
  {
    var pads := PadsOf(["a"], [junk]);
    var pad := [NUL] + junk[4..];
    assert AllGatherable(["a"]) && pads[0] == pad;
    assert forall k :: 4 <= k < 198 ==> junk[k] == junk[4..198][k - 4];
    IndexOfIs(pad, 0, 195, 'H');
    IndexOfIs(pad, 196, 197, 'E');
    assert !Harmless(pad, ["a"][0 + 1..]);
    GatherIP(["a"], [junk]);
    assert !Harmless(pads[0], ["a"][0 + 1..]);
    assert GatherAll(["a"], [junk]).value == SendMessage("a", junk).value + [];
  }
}
