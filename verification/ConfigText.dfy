// The lines of a frozen policy: key=value pairs and nothing else
// (src/core/frozen_config.cpp:575-613).
module ConfigText {
  import opened Types
  import opened Floats

  const MAX_POLICY_BYTES := 1048576

  type Pair = (string, string)

  predicate LegalChar(c: char) {
    c !in {' ', '\t', 11 as char, 12 as char, '=', '\n', '\r'}
  }

  predicate LegalText(s: string) {
    s != "" && forall i :: 0 <= i < |s| ==> LegalChar(s[i])
  }

  predicate PairLegal(p: Pair) {
    LegalText(p.0) && LegalText(p.1) && p.0[0] != '#'
  }

  // Legal pairs with pairwise distinct keys.
  predicate PairsLegal(ps: seq<Pair>) {
    && (forall i :: 0 <= i < |ps| ==> PairLegal(ps[i]))
    && (forall i, j :: 0 <= i < j < |ps| ==> ps[i].0 != ps[j].0)
  }

  function LineText(p: Pair): string { p.0 + "=" + p.1 }

  // The bytes that spell the pairs.
  function Join(ps: seq<Pair>): string {
    if ps == [] then "" else Join(ps[..|ps| - 1]) + LineText(ps[|ps| - 1]) + "\n"
  }

  predicate JoinsTo(ps: seq<Pair>, bytes: string) { PairsLegal(ps) && Join(ps) == bytes }

  // ---- one line ----

  predicate BlankChar(c: char) { c in {' ', '\t', 11 as char, 12 as char} }

  function PairOf(line: string): Option<Pair> {
    var separator := FirstOf(line, {'='});
    if line == "" || line[0] == '#' || (exists i :: 0 <= i < |line| && BlankChar(line[i])) then None
    else if separator == |line| then None
    else if FirstOf(line[separator + 1..], {'='}) != |line| - separator - 1 then None
    else if separator == 0 || separator + 1 == |line| then None
    else Some((line[..separator], line[separator + 1..]))
  }

  predicate OneLine(line: string) { forall i :: 0 <= i < |line| ==> line[i] != '\n' && line[i] != '\r' }

  lemma PairSpelled(line: string, p: Pair)
    requires PairLegal(p) && line == LineText(p)
    ensures PairOf(line) == Some(p) && OneLine(line)
  {
    forall i | 0 <= i < |line|
      ensures line[i] == if i < |p.0| then p.0[i] else if i == |p.0| then '=' else p.1[i - |p.0| - 1]
    {
    }
    FirstIs(line, {'='}, |p.0|);
    assert line[|p.0| + 1..] == p.1 && line[..|p.0|] == p.0;
    forall i | 0 <= i < |p.1| ensures p.1[i] !in {'='} {
      assert LegalChar(p.1[i]);
    }
    FirstIs(p.1, {'='}, |p.1|);
    forall i | 0 <= i < |line| ensures !BlankChar(line[i]) && line[i] != '\n' && line[i] != '\r' {
      assert i < |p.0| ==> LegalChar(p.0[i]);
      assert i > |p.0| ==> LegalChar(p.1[i - |p.0| - 1]);
    }
    assert line[0] == p.0[0];
    hide FirstOf;
  }

  lemma PairRead(line: string)
    requires OneLine(line) && PairOf(line).Some?
    ensures PairLegal(PairOf(line).value) && line == LineText(PairOf(line).value)
  {
    var p := PairOf(line).value;
    var separator := FirstOf(line, {'='});
    assert p.1 == line[separator + 1..] && p.0 == line[..separator];
    forall i | 0 <= i < |p.0| ensures LegalChar(p.0[i]) {
      assert p.0[i] == line[i];
    }
    forall i | 0 <= i < |p.1| ensures LegalChar(p.1[i]) {
      assert p.1[i] == line[separator + 1 + i];
      assert p.1[i] !in {'='};
    }
    hide FirstOf;
    assert line == line[..separator] + [line[separator]] + line[separator + 1..];
  }

  // ---- all lines ----

  lemma {:induction false} JoinIsClean(ps: seq<Pair>)
    requires PairsLegal(ps) && ps != []
    ensures var b := Join(ps);
            && b != "" && b[|b| - 1] == '\n' && b[0] != '\n'
            && (forall i :: 0 <= i < |b| ==> b[i] != '\r')
            && (forall i :: 0 <= i < |b| - 1 ==> !(b[i] == '\n' && b[i + 1] == '\n'))
  {
    var front, p := ps[..|ps| - 1], ps[|ps| - 1];
    var line := LineText(p);
    PairSpelled(line, p);
    hide PairOf, LegalChar, BlankChar;
    assert PairsLegal(front);
    var f := Join(front);
    if front != [] { JoinIsClean(front); }
    var b := Join(ps);
    forall i | 0 <= i < |b|
      ensures b[i] == if i < |f| then f[i] else if i < |f| + |line| then line[i - |f|] else '\n'
    {
    }
  }

  lemma {:induction false} JoinOfPrefix(ps: seq<Pair>, n: nat)
    requires n <= |ps|
    ensures |Join(ps[..n])| <= |Join(ps)| && Join(ps)[..|Join(ps[..n])|] == Join(ps[..n])
  {
    if n < |ps| {
      var front := ps[..|ps| - 1];
      JoinOfPrefix(front, n);
      assert front[..n] == ps[..n];
    } else {
      assert ps[..n] == ps;
    }
  }

  // Where a line starts, the line is that of the next pair, whatever legal
  // pairs spell the bytes.
  lemma NextLineForced(bytes: string, ps: seq<Pair>, n: nat, position: nat)
    requires JoinsTo(ps, bytes) && n <= |ps| && position == |Join(ps[..n])| < |bytes|
    ensures n < |ps|
    ensures var length := FirstOf(bytes[position..], {'\n'});
            && length < |bytes| - position
            && bytes[position..position + length] == LineText(ps[n])
            && PairOf(bytes[position..position + length]) == Some(ps[n])
            && position + length + 1 == |Join(ps[..n + 1])|
  {
    hide PairOf, LegalChar, LegalText, Join;
    assert ps[..|ps|] == ps;
    var line := LineText(ps[n]);
    PairSpelled(line, ps[n]);
    LineInText(bytes, ps, n, position);
    var rest := bytes[position..];
    forall i | 0 <= i <= |line| ensures rest[i] == if i < |line| then line[i] else '\n' {
      assert rest[i] == bytes[position + i];
      assert i < |line| ==> bytes[position..position + |line|][i] == bytes[position + i];
    }
    FirstIs(rest, {'\n'}, |line|);
  }

  // The next pair's line stands at the position, and a line feed after it.
  lemma LineInText(bytes: string, ps: seq<Pair>, n: nat, position: nat)
    requires Join(ps) == bytes && n < |ps| && position == |Join(ps[..n])|
    ensures var line := LineText(ps[n]);
            && position + |line| < |bytes| && bytes[position..position + |line|] == line
            && bytes[position + |line|] == '\n' && position + |line| + 1 == |Join(ps[..n + 1])|
  {
    assert ps[..n + 1][..n] == ps[..n];
    JoinOfPrefix(ps, n + 1);
    var line, before, upto := LineText(ps[n]), Join(ps[..n]), Join(ps[..n + 1]);
    assert upto == before + line + "\n";
    hide Join, LineText;
    StandsAfter(bytes, before, line);
  }

  lemma StandsAfter(bytes: string, before: string, line: string)
    requires |before + line + "\n"| <= |bytes| && bytes[..|before + line + "\n"|] == before + line + "\n"
    ensures bytes[|before|..|before| + |line|] == line && bytes[|before| + |line|] == '\n'
  {
    var upto := before + line + "\n";
    assert bytes[|before|..|before| + |line|] == upto[|before|..|before| + |line|] == line;
    assert bytes[|before| + |line|] == upto[|before| + |line|];
  }

  lemma JoinGrows(ps: seq<Pair>, n: nat)
    requires n < |ps|
    ensures |Join(ps[..n])| < |Join(ps)|
  {
    JoinOfPrefix(ps, n + 1);
    assert ps[..n + 1][..n] == ps[..n];
  }

  // The bytes determine the pairs.
  lemma {:induction false} JoinIsInjective(ps: seq<Pair>, qs: seq<Pair>, n: nat)
    requires PairsLegal(ps) && PairsLegal(qs) && Join(ps) == Join(qs)
    requires n <= |ps| && n <= |qs| && ps[..n] == qs[..n]
    ensures ps == qs
    decreases |ps| - n
  {
    hide PairOf, PairsLegal, Join, LineText, FirstOf;
    var bytes, position := Join(ps), |Join(ps[..n])|;
    if n < |ps| {
      JoinGrows(ps, n);
      NextLineForced(bytes, ps, n, position);
      NextLineForced(bytes, qs, n, position);
      assert ps[..n + 1] == ps[..n] + [ps[n]] && qs[..n + 1] == qs[..n] + [qs[n]];
      JoinIsInjective(ps, qs, n + 1);
    } else {
      if n < |qs| { JoinGrows(qs, n); }
      assert ps == ps[..n] && qs == qs[..|qs|];
    }
  }

  // The values of the pairs by key.
  function MapOf(ps: seq<Pair>): map<string, string> {
    if ps == [] then map[] else MapOf(ps[..|ps| - 1])[ps[|ps| - 1].0 := ps[|ps| - 1].1]
  }

  lemma {:induction false} MapHolds(ps: seq<Pair>)
    requires forall i, j :: 0 <= i < j < |ps| ==> ps[i].0 != ps[j].0
    ensures forall i :: 0 <= i < |ps| ==> ps[i].0 in MapOf(ps) && MapOf(ps)[ps[i].0] == ps[i].1
    ensures forall k :: k in MapOf(ps) ==> exists i :: 0 <= i < |ps| && ps[i].0 == k
  {
    if ps != [] {
      var front := ps[..|ps| - 1];
      MapHolds(front);
      forall i | 0 <= i < |ps| ensures ps[i].0 in MapOf(ps) && MapOf(ps)[ps[i].0] == ps[i].1 {
        if i < |front| { assert front[i] == ps[i]; }
      }
      forall k | k in MapOf(ps) ensures exists i :: 0 <= i < |ps| && ps[i].0 == k {
        if k != ps[|ps| - 1].0 {
          assert k in MapOf(front);
          var i :| 0 <= i < |front| && front[i].0 == k;
          assert ps[i].0 == k;
        } else {
          assert ps[|ps| - 1].0 == k;
        }
      }
    }
  }

  function Keys(ps: seq<Pair>): (ks: seq<string>)
    ensures |ks| == |ps| && forall i :: 0 <= i < |ps| ==> ks[i] == ps[i].0
  {
    if ps == [] then [] else Keys(ps[..|ps| - 1]) + [ps[|ps| - 1].0]
  }

  // The size and the end of the text, before any line is looked at.
  predicate TextAcceptable(bytes: string) {
    && bytes != "" && |bytes| <= MAX_POLICY_BYTES
    && bytes[|bytes| - 1] == '\n'
    && (forall i :: 0 <= i < |bytes| ==> bytes[i] != '\r')
    && (forall i :: 0 <= i < |bytes| - 1 ==> !(bytes[i] == '\n' && bytes[i + 1] == '\n'))
  }

  // The pairs of the text, in order and by key; nothing when a line is not
  // legal or a key repeats. The text is refused exactly when no legal pairs
  // spell it, except for a lone line feed, which has no lines at all.
  method SplitPairs(bytes: string) returns (r: Option<(seq<Pair>, map<string, string>)>)
    ensures r.Some? ==> r.value.1 == MapOf(r.value.0) && PairsLegal(r.value.0) && |bytes| <= MAX_POLICY_BYTES
    ensures r.Some? ==> if r.value.0 == [] then bytes == "\n" else Join(r.value.0) == bytes
    ensures r.None? ==> forall ps :: JoinsTo(ps, bytes) ==> ps == [] || |bytes| > MAX_POLICY_BYTES
  {
    hide PairOf, PairsLegal, Join, MapOf, Committed, JoinsTo, TextAcceptable, FirstOf;
    SpelledIsAcceptable(bytes);
    if !TextAcceptable(bytes) {
      return None;
    }
    var content := bytes[..|bytes| - 1];
    var pairs: seq<Pair>, values: map<string, string> := [], map[];
    var position := 0;
    NothingCommitted(bytes);
    while position < |content|
      invariant 0 <= position <= |bytes|
      invariant values == MapOf(pairs) && Committed(bytes, pairs, position)
      decreases |bytes| - position
    {
      var length := FirstOf(content[position..], {'\n'});
      var line := content[position..position + length];
      LineInBytes(bytes, position);
      var pair := PairOf(line);
      if pair.None? {
        RefusedLine(bytes, pairs, position);
        return None;
      }
      if pair.value.0 in values {
        RepeatedKey(bytes, pairs, position);
        return None;
      }
      CommittedMore(bytes, pairs, position);
      pairs, values := pairs + [pair.value], values[pair.value.0 := pair.value.1];
      position := position + length + 1;
    }
    AllCommitted(bytes, pairs, position);
    return Some((pairs, values));
  }

  // The pairs read so far spell the text up to the position, and every way to
  // spell the whole text starts with them.
  ghost predicate Committed(bytes: string, pairs: seq<Pair>, position: nat) {
    && position <= |bytes|
    && PairsLegal(pairs) && Join(pairs) == bytes[..position]
    && (pairs == [] <==> position == 0)
    && forall ps :: JoinsTo(ps, bytes) ==> |pairs| <= |ps| && ps[..|pairs|] == pairs
  }

  lemma NothingCommitted(bytes: string)
    ensures Committed(bytes, [], 0) && MapOf([]) == map[]
  {
  }

  lemma SpelledIsAcceptable(bytes: string)
    ensures TextAcceptable(bytes) ==> bytes != ""
    ensures !TextAcceptable(bytes) ==> forall ps :: JoinsTo(ps, bytes) ==> ps == [] || |bytes| > MAX_POLICY_BYTES
  {
    hide PairsLegal, Join;
    forall ps | JoinsTo(ps, bytes) && ps != [] ensures TextAcceptable(bytes) || |bytes| > MAX_POLICY_BYTES {
      JoinIsClean(ps);
    }
  }

  function LineAt(bytes: string, position: nat): string
    requires position < |bytes|
  {
    bytes[position..position + FirstOf(bytes[position..], {'\n'})]
  }

  lemma ForcedLine(bytes: string, pairs: seq<Pair>, position: nat, ps: seq<Pair>)
    requires position < |bytes| && Committed(bytes, pairs, position) && JoinsTo(ps, bytes)
    ensures |pairs| < |ps| && PairOf(LineAt(bytes, position)) == Some(ps[|pairs|])
    ensures position + FirstOf(bytes[position..], {'\n'}) + 1 == |Join(ps[..|pairs| + 1])|
  {
    hide PairsLegal, Join, PairOf, FirstOf;
    NextLineForced(bytes, ps, |pairs|, position);
  }

  lemma RefusedLine(bytes: string, pairs: seq<Pair>, position: nat)
    requires position < |bytes| && Committed(bytes, pairs, position)
    requires PairOf(LineAt(bytes, position)).None?
    ensures forall ps :: !JoinsTo(ps, bytes)
  {
    hide Committed, JoinsTo, PairOf, LineAt;
    forall ps ensures !JoinsTo(ps, bytes) {
      if JoinsTo(ps, bytes) { ForcedLine(bytes, pairs, position, ps); }
    }
  }

  lemma RepeatedKey(bytes: string, pairs: seq<Pair>, position: nat)
    requires position < |bytes| && Committed(bytes, pairs, position)
    requires PairOf(LineAt(bytes, position)).Some? && PairOf(LineAt(bytes, position)).value.0 in MapOf(pairs)
    ensures forall ps :: !JoinsTo(ps, bytes)
  {
    hide PairOf, LineAt, Join, MapOf, PairsLegal;
    forall ps: seq<Pair> ensures !JoinsTo(ps, bytes) {
      if JoinsTo(ps, bytes) {
        ForcedLine(bytes, pairs, position, ps);
        FreshKey(ps, |pairs|);
      }
    }
  }

  lemma CommittedMore(bytes: string, pairs: seq<Pair>, position: nat)
    requires position < |bytes| && Committed(bytes, pairs, position)
    requires OneLine(LineAt(bytes, position)) && PairOf(LineAt(bytes, position)).Some?
    requires PairOf(LineAt(bytes, position)).value.0 !in MapOf(pairs)
    requires position + FirstOf(bytes[position..], {'\n'}) < |bytes|
    requires bytes[position + FirstOf(bytes[position..], {'\n'})] == '\n'
    ensures var p := PairOf(LineAt(bytes, position)).value;
            && Committed(bytes, pairs + [p], position + FirstOf(bytes[position..], {'\n'}) + 1)
            && MapOf(pairs + [p]) == MapOf(pairs)[p.0 := p.1]
  {
    hide PairOf, Join, MapOf, PairsLegal, JoinsTo, FirstOf;
    var line := LineAt(bytes, position);
    var p := PairOf(line).value;
    PairRead(line);
    PairsExtend(pairs, p);
    var next := position + FirstOf(bytes[position..], {'\n'}) + 1;
    assert bytes[..next] == bytes[..position] + line + "\n";
    forall ps: seq<Pair> | JoinsTo(ps, bytes) ensures |pairs| + 1 <= |ps| && ps[..|pairs| + 1] == pairs + [p] {
      ForcedLine(bytes, pairs, position, ps);
      assert ps[..|pairs| + 1] == ps[..|pairs|] + [ps[|pairs|]];
    }
  }

  lemma AllCommitted(bytes: string, pairs: seq<Pair>, position: nat)
    requires TextAcceptable(bytes) && |bytes| - 1 <= position <= |bytes| && Committed(bytes, pairs, position)
    ensures PairsLegal(pairs) && |bytes| <= MAX_POLICY_BYTES
    ensures if pairs == [] then bytes == "\n" else Join(pairs) == bytes
  {
    if pairs != [] { JoinIsClean(pairs); }
    hide PairsLegal, Join;
    ContentEnds(bytes, position);
    assert bytes[..|bytes|] == bytes;
  }

  // Looking for the end of a line in the text without its last line feed finds
  // the same line.
  lemma LineInBytes(bytes: string, position: nat)
    requires TextAcceptable(bytes) && position < |bytes| - 1
    ensures var content := bytes[..|bytes| - 1];
            var length := FirstOf(content[position..], {'\n'});
            && length == FirstOf(bytes[position..], {'\n'})
            && position + length + 1 <= |bytes| && bytes[position + length] == '\n'
            && content[position..position + length] == bytes[position..position + length]
            && OneLine(content[position..position + length])
  {
    var content := bytes[..|bytes| - 1];
    var length := FirstOf(content[position..], {'\n'});
    var rest, inner := bytes[position..], content[position..];
    forall j | 0 <= j < length ensures rest[j] !in {'\n'} {
      assert rest[j] == inner[j];
    }
    assert rest[length] == '\n' by {
      if length < |inner| { assert rest[length] == inner[length]; }
    }
    FirstIs(rest, {'\n'}, length);
    var line := content[position..position + length];
    forall i | 0 <= i < length ensures line[i] != '\n' {
      assert line[i] == inner[i];
      assert inner[i] !in {'\n'};
    }
  }

  lemma FreshKey(ps: seq<Pair>, n: nat)
    requires PairsLegal(ps) && n < |ps|
    ensures ps[n].0 !in MapOf(ps[..n])
  {
    MapHolds(ps[..n]);
  }

  lemma PairsExtend(ps: seq<Pair>, p: Pair)
    requires PairsLegal(ps) && PairLegal(p) && p.0 !in MapOf(ps)
    ensures PairsLegal(ps + [p]) && MapOf(ps + [p]) == MapOf(ps)[p.0 := p.1]
    ensures Join(ps + [p]) == Join(ps) + LineText(p) + "\n"
  {
    hide PairLegal;
    MapHolds(ps);
    assert (ps + [p])[..|ps|] == ps;
  }

  // After the last line the position is past the final line feed, unless there
  // was no line.
  lemma ContentEnds(bytes: string, position: nat)
    requires TextAcceptable(bytes) && |bytes| - 1 <= position <= |bytes|
    requires position > 0 ==> bytes[position - 1] == '\n'
    ensures position == |bytes| || (position == 0 && bytes == "\n")
  {
  }
}
