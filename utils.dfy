/** The helpers of src/utils.ts: the label/output scan that finds where a
    template may match, the control comparison, the scans for ports without a
    connection, and the trailing-number increment used to make keys unique. */
module Utils {
  import opened Rete

  // ---------------------------------------------------------------------
  // Decimal digits.

  predicate IsDigit(c: char)
  {
    '0' <= c <= '9'
  }

  predicate AllDigits(s: string)
  {
    forall i :: 0 <= i < |s| ==> IsDigit(s[i])
  }

  /** The characters JavaScript's `.` does not match. */
  predicate IsLineTerminator(c: char)
  {
    c == '\n' || c == '\r' || c == '\U{2028}' || c == '\U{2029}'
  }

  predicate NoLineTerminator(s: string)
  {
    forall i :: 0 <= i < |s| ==> !IsLineTerminator(s[i])
  }

  function DigitChar(d: nat): (c: char)
    requires d < 10
    ensures IsDigit(c)
  {
    ('0' as int + d) as char
  }

  function DigitValue(c: char): (d: nat)
    requires IsDigit(c)
    ensures d < 10
  {
    c as int - '0' as int
  }

  /** The decimal representation of `n` (template-literal conversion of an
      integer). */
  function Decimal(n: nat): (s: string)
    ensures |s| > 0 && IsDigit(s[|s| - 1])
  {
    if n < 10 then [DigitChar(n)] else Decimal(n / 10) + [DigitChar(n % 10)]
  }

  lemma {:induction false} DecimalDigits(n: nat)
    ensures AllDigits(Decimal(n))
  {
    if n >= 10 {
      DecimalDigits(n / 10);
    }
  }

  /** `parseInt` of a string of decimal digits. */
  function ParseDecimal(s: string): nat
    requires AllDigits(s)
  {
    if s == [] then 0 else ParseDecimal(s[..|s| - 1]) * 10 + DigitValue(s[|s| - 1])
  }

  lemma {:induction false} ParseDecimalOfDecimal(n: nat)
    ensures AllDigits(Decimal(n)) && ParseDecimal(Decimal(n)) == n
  {
    DecimalDigits(n);
    if n >= 10 {
      var s := Decimal(n);
      assert s[..|s| - 1] == Decimal(n / 10);
      ParseDecimalOfDecimal(n / 10);
    }
  }

  /** Different numbers have different representations. */
  lemma DecimalInjective(a: nat, b: nat)
    requires a != b
    ensures Decimal(a) != Decimal(b)
  {
    ParseDecimalOfDecimal(a);
    ParseDecimalOfDecimal(b);
  }

  // ---------------------------------------------------------------------
  // incrementStringNumber (src/utils.ts:75-99).

  /** The index just after the last line terminator of `s`, 0 if none. */
  function LineStart(s: string): (j: nat)
    ensures j <= |s|
  {
    if s == [] then 0
    else if IsLineTerminator(s[|s| - 1]) then |s|
    else LineStart(s[..|s| - 1])
  }

  lemma {:induction false} LineStartSpec(s: string)
    ensures NoLineTerminator(s[LineStart(s)..])
    ensures LineStart(s) > 0 ==> IsLineTerminator(s[LineStart(s) - 1])
  {
    if s != [] && !IsLineTerminator(s[|s| - 1]) {
      var j := LineStart(s[..|s| - 1]);
      LineStartSpec(s[..|s| - 1]);
      assert s[j..] == s[..|s| - 1][j..] + [s[|s| - 1]];
    }
  }

  /** Where the longest run of digits that ends `s` begins. */
  function DigitRunStart(s: string): (d: nat)
    ensures d <= |s|
  {
    if s == [] then 0
    else if !IsDigit(s[|s| - 1]) then |s|
    else DigitRunStart(s[..|s| - 1])
  }

  lemma {:induction false} DigitRunStartSpec(s: string)
    ensures AllDigits(s[DigitRunStart(s)..])
    ensures DigitRunStart(s) > 0 ==> !IsDigit(s[DigitRunStart(s) - 1])
  {
    if s == [] {
    } else if !IsDigit(s[|s| - 1]) {
      assert s[|s|..] == [];
    } else {
      var t := s[..|s| - 1];
      var d := DigitRunStart(t);
      DigitRunStartSpec(t);
      assert DigitRunStart(s) == d;
      forall i | d <= i < |s| ensures IsDigit(s[i]) {
        if i < |t| {
          assert t[d..][i - d] == t[i] == s[i];
        }
      }
      assert d > 0 ==> s[d - 1] == t[d - 1];
    }
  }

  /** Only one index has the two properties of `LineStart`. */
  lemma LineStartIs(s: string, j: nat)
    requires j <= |s| && NoLineTerminator(s[j..])
    requires j > 0 ==> IsLineTerminator(s[j - 1])
    ensures LineStart(s) == j
  {
    LineStartSpec(s);
    var j' := LineStart(s);
    forall i | j <= i < |s| ensures !IsLineTerminator(s[i]) {
      assert s[j..][i - j] == s[i];
    }
    forall i | j' <= i < |s| ensures !IsLineTerminator(s[i]) {
      assert s[j'..][i - j'] == s[i];
    }
  }

  /** Only one index has the two properties of `DigitRunStart`. */
  lemma DigitRunStartIs(s: string, d: nat)
    requires d <= |s| && AllDigits(s[d..])
    requires d > 0 ==> !IsDigit(s[d - 1])
    ensures DigitRunStart(s) == d
  {
    DigitRunStartSpec(s);
    var d' := DigitRunStart(s);
    forall i | d <= i < |s| ensures IsDigit(s[i]) {
      assert s[d..][i - d] == s[i];
    }
    forall i | d' <= i < |s| ensures IsDigit(s[i]) {
      assert s[d'..][i - d'] == s[i];
    }
  }

  lemma LineStartBeforeDigitRun(s: string)
    ensures LineStart(s) <= DigitRunStart(s)
  {
    LineStartSpec(s);
    DigitRunStartSpec(s);
    var j, d := LineStart(s), DigitRunStart(s);
    forall i | d <= i < |s| ensures IsDigit(s[i]) {
      assert s[d..][i - d] == s[i];
    }
  }

  /** Group 1 of the match of `/(.*?)(\d+)?$/` against `s`. The engine tries
      each start index in turn; `.` matches no line terminator and `$` only
      the end of input, so the first match starts after the last line
      terminator, and the lazy group 1 stops where the trailing digits begin. */
  function MatchedBase(s: string): string
  {
    LineStartBeforeDigitRun(s);
    s[LineStart(s)..DigitRunStart(s)]
  }

  /** `parseInt` of group 2 of that match (the trailing digits), or None
      when the group is undefined because there are no trailing digits. */
  function MatchedNumber(s: string): Option<nat>
  {
    if DigitRunStart(s) < |s| then
      DigitRunStartSpec(s);
      Some(ParseDecimal(s[DigitRunStart(s)..]))
    else None
  }

  /** incrementStringNumber: the base followed by the trailing number plus
      one, or by "2" when there is no trailing number. The regex always
      matches, so the source's fallback for a failed match is unreachable and
      not modelled. */
  function IncrementStringNumber(s: string): (r: string)
    ensures |r| > 0 && IsDigit(r[|r| - 1])
  {
    MatchedBase(s) + match MatchedNumber(s)
      case Some(n) => Decimal(n + 1)
      case None => "2"
  }

  /** incrementStringNumber in terms of where the last line and the
      trailing digits begin. */
  lemma IncrementAt(s: string, j: nat, d: nat)
    requires j == LineStart(s) && d == DigitRunStart(s) && AllDigits(s[d..])
    ensures j <= d <= |s|
    ensures IncrementStringNumber(s) == Incremented(s[j..d], s[d..])
  {
    MatchedAt(s, j, d);
  }

  /** The two groups of the match, in terms of where the last line and the
      trailing digits begin. */
  lemma MatchedAt(s: string, j: nat, d: nat)
    requires j == LineStart(s) && d == DigitRunStart(s) && AllDigits(s[d..])
    ensures j <= d <= |s| && MatchedBase(s) == s[j..d]
    ensures MatchedNumber(s) == if d < |s| then Some(ParseDecimal(s[d..])) else None
  {
    LineStartBeforeDigitRun(s);
  }

  /** `base` followed by the successor of `digits`, or by "2" when there
      are no digits. */
  function Incremented(base: string, digits: string): string
    requires AllDigits(digits)
  {
    base + if |digits| > 0 then Decimal(ParseDecimal(digits) + 1) else "2"
  }

  /** The result is a single line: whatever preceded the last line break is
      gone. */
  lemma IncrementNoLineTerminator(s: string)
    ensures NoLineTerminator(IncrementStringNumber(s))
  {
    LineStartSpec(s);
    LineStartBeforeDigitRun(s);
    var j, d := LineStart(s), DigitRunStart(s);
    assert MatchedBase(s) == s[j..][..d - j];
    if MatchedNumber(s).Some? {
      DecimalDigits(MatchedNumber(s).value + 1);
    }
  }

  /** A string with no trailing number gets "2" appended (so "" becomes "2"). */
  lemma IncrementAppendsTwo(s: string)
    requires NoLineTerminator(s)
    requires s == [] || !IsDigit(s[|s| - 1])
    ensures IncrementStringNumber(s) == s + "2"
  {
    assert s[0..] == s && s[|s|..] == [];
    LineStartIs(s, 0);
    DigitRunStartIs(s, |s|);
  }

  /** A trailing number is replaced by its successor ("a09" becomes "a10"). */
  lemma IncrementTrailingNumber(p: string, digits: string)
    requires NoLineTerminator(p) && (p == [] || !IsDigit(p[|p| - 1]))
    requires |digits| > 0 && AllDigits(digits)
    ensures IncrementStringNumber(p + digits) == p + Decimal(ParseDecimal(digits) + 1)
  {
    var s := p + digits;
    assert s[|p|..] == digits;
    assert s[0..] == s && s[0..|p|] == p;
    DigitsSingleLine(p, digits);
    LineStartIs(s, 0);
    DigitRunStartIs(s, |p|);
    SplitAtDigits(s, p, digits);
  }

  /** incrementStringNumber of a single line cut where its trailing digits
      begin. */
  lemma SplitAtDigits(s: string, p: string, digits: string)
    requires |p| <= |s| && s[0..|p|] == p && s[|p|..] == digits && AllDigits(digits)
    requires LineStart(s) == 0 && DigitRunStart(s) == |p| < |s|
    ensures IncrementStringNumber(s) == p + Decimal(ParseDecimal(digits) + 1)
  {
    IncrementAt(s, 0, |p|);
  }

  /** Digits are no line terminators. */
  lemma DigitsSingleLine(p: string, digits: string)
    requires NoLineTerminator(p) && AllDigits(digits)
    ensures NoLineTerminator(p + digits)
  {
    forall i | 0 <= i < |p + digits| ensures !IsLineTerminator((p + digits)[i]) {
      if i >= |p| {
        assert IsDigit(digits[i - |p|]);
      }
    }
  }

  /** Text up to the last line break is dropped: the result depends only on
      what follows it ("a\nb" becomes "b2"). */
  lemma IncrementDropsTextBeforeLineBreak(s: string, k: nat)
    requires 0 < k <= |s| && IsLineTerminator(s[k - 1]) && NoLineTerminator(s[k..])
    ensures IncrementStringNumber(s) == IncrementStringNumber(s[k..])
  {
    IncrementAfterBreak(s, k);
    IncrementSingleLine(s[k..]);
  }

  /** incrementStringNumber of a string whose last line starts at `k`,
      in terms of that last line. */
  lemma IncrementAfterBreak(s: string, k: nat)
    requires 0 < k <= |s| && IsLineTerminator(s[k - 1]) && NoLineTerminator(s[k..])
    ensures var q := s[k..]; var d := DigitRunStart(q);
      d <= |q| && AllDigits(q[d..]) && IncrementStringNumber(s) == Incremented(q[0..d], q[d..])
  {
    var q := s[k..];
    var d := DigitRunStart(q);
    LineStartIs(s, k);
    DigitRunAfter(s, k);
    DigitRunStartSpec(s);
    IncrementAt(s, k, DigitRunStart(s));
    SameLastLine(s, k, q, d);
  }

  /** incrementStringNumber of a single line. */
  lemma IncrementSingleLine(q: string)
    requires NoLineTerminator(q)
    ensures var d := DigitRunStart(q);
      AllDigits(q[d..]) && IncrementStringNumber(q) == Incremented(q[0..d], q[d..])
  {
    assert q[0..] == q;
    LineStartIs(q, 0);
    DigitRunStartSpec(q);
    IncrementAt(q, 0, DigitRunStart(q));
  }

  /** Two strings whose last lines agree increment alike. */
  lemma SameLastLine(s: string, k: nat, q: string, d: nat)
    requires k <= |s| && s[k..] == q && d <= |q| && AllDigits(q[d..])
    ensures AllDigits(s[k + d..])
    ensures Incremented(s[k..k + d], s[k + d..]) == Incremented(q[0..d], q[d..])
  {
    assert s[k + d..] == q[d..] && s[k..k + d] == q[0..d];
  }

  /** The trailing digits of `s` are those of any suffix that starts after
      a non-digit. */
  lemma DigitRunAfter(s: string, k: nat)
    requires 0 < k <= |s| && !IsDigit(s[k - 1])
    ensures DigitRunStart(s) == k + DigitRunStart(s[k..])
  {
    var q := s[k..];
    DigitRunStartSpec(q);
    var d := DigitRunStart(q);
    assert s[k + d..] == q[d..];
    assert d > 0 ==> s[k + d - 1] == q[d - 1];
    DigitRunStartIs(s, k + d);
  }


  /** The result never equals the input. */
  lemma IncrementChanges(s: string)
    ensures IncrementStringNumber(s) != s
  {
    LineStartSpec(s);
    DigitRunStartSpec(s);
    LineStartBeforeDigitRun(s);
    IncrementNoLineTerminator(s);
    var j, d := LineStart(s), DigitRunStart(s);
    var r := IncrementStringNumber(s);
    if j > 0 {
      assert IsLineTerminator(s[j - 1]);
    } else if d == |s| {
      assert |r| == |s| + 1;
    } else {
      var digits := s[d..];
      var next := Decimal(ParseDecimal(digits) + 1);
      assert r == s[0..d] + next;
      assert s == s[0..d] + digits;
      ParseDecimalOfDecimal(ParseDecimal(digits) + 1);
      assert digits != next;
      assert r[d..] == next && s[d..] == digits;
    }
  }

  lemma IncrementExamples()
    ensures IncrementStringNumber("") == "2"
    ensures IncrementStringNumber("out") == "out2"
    ensures IncrementStringNumber("out2") == "out3"
  {
    IncrementAppendsTwo("");
    IncrementAppendsTwo("out");
    IncrementExampleOut2();
  }

  lemma IncrementExampleOut2()
    ensures IncrementStringNumber("out2") == "out3"
  {
    IncrementTrailingNumber("out", "2");
    assert "out" + "2" == "out2";
    assert ParseDecimal("2") == 2 by {
      assert "2"[..0] == "";
    }
    assert Decimal(3) == "3";
  }

  // ---------------------------------------------------------------------
  // findPositions (src/utils.ts:4-15).

  /** `editor.getNodes().filter(node => node.label === caption)`. */
  function WithCaption(nodes: seq<Node>, caption: string): (r: seq<Node>)
    ensures forall n :: n in r <==> n in nodes && n.caption == caption
    ensures UniqueNodeIds(nodes) ==> UniqueNodeIds(r)
  {
    if nodes == [] then []
    else
      var rest := WithCaption(nodes[1..], caption);
      if nodes[0].caption != caption then rest
      else
        assert UniqueNodeIds(nodes) ==> forall n :: n in rest ==> n.id != nodes[0].id by {
          forall n | UniqueNodeIds(nodes) && n in rest ensures n.id != nodes[0].id {
            var k :| 0 <= k < |nodes[1..]| && nodes[1..][k] == n;
            assert nodes[k + 1] == n;
          }
        }
        [nodes[0]] + rest
  }

  /** The positions of `output` on those of `candidates` that have it, in
      order. */
  function PositionsAmong(candidates: seq<Node>, output: string): (r: seq<OutputPosition>)
  {
    if candidates == [] then []
    else
      var n := candidates[|candidates| - 1];
      PositionsAmong(candidates[..|candidates| - 1], output)
        + (if output in KeySet(n.outputs) then [OutputPosition(n.id, output)] else [])
  }

  /** Where a template whose exit node has caption `caption` and exit
      output `output` may match. */
  function Positions(nodes: seq<Node>, caption: string, output: string): seq<OutputPosition>
  {
    PositionsAmong(WithCaption(nodes, caption), output)
  }

  method FindPositions(nodes: seq<Node>, caption: string, output: string)
    returns (r: seq<OutputPosition>)
    ensures r == Positions(nodes, caption, output)
  {
    var candidates := WithCaption(nodes, caption);
    r := [];
    for i := 0 to |candidates|
      invariant r == PositionsAmong(candidates[..i], output)
    {
      assert candidates[..i + 1][..i] == candidates[..i];
      if output in KeySet(candidates[i].outputs) {
        r := r + [OutputPosition(candidates[i].id, output)];
      }
    }
    assert candidates[..|candidates|] == candidates;
  }

  lemma {:induction false} PositionsAmongMembership(candidates: seq<Node>, output: string, p: OutputPosition)
    ensures p in PositionsAmong(candidates, output) <==>
      p.output == output && exists n :: n in candidates && n.id == p.node && output in KeySet(n.outputs)
  {
    if candidates != [] {
      var init := candidates[..|candidates| - 1];
      PositionsAmongMembership(init, output, p);
      assert forall n :: n in candidates <==> n in init || n == candidates[|candidates| - 1];
    }
  }

  /** A position is found exactly for each node with the caption and the
      output (soundness and completeness). */
  lemma PositionsMembership(nodes: seq<Node>, caption: string, output: string, p: OutputPosition)
    ensures p in Positions(nodes, caption, output) <==>
      p.output == output &&
      exists n :: n in nodes && n.id == p.node && n.caption == caption && output in KeySet(n.outputs)
  {
    PositionsAmongMembership(WithCaption(nodes, caption), output, p);
  }

  lemma {:induction false} PositionsAmongDistinct(candidates: seq<Node>, output: string)
    requires UniqueNodeIds(candidates)
    ensures var r := PositionsAmong(candidates, output);
      forall i, j :: 0 <= i < j < |r| ==> r[i].node != r[j].node
  {
    if candidates != [] {
      var init := candidates[..|candidates| - 1];
      var n := candidates[|candidates| - 1];
      PositionsAmongDistinct(init, output);
      var prev := PositionsAmong(init, output);
      forall i | 0 <= i < |prev| ensures prev[i].node != n.id {
        PositionsAmongMembership(init, output, prev[i]);
        var m :| m in init && m.id == prev[i].node && output in KeySet(m.outputs);
        var k :| 0 <= k < |init| && init[k] == m;
      }
    }
  }

  /** With unique node ids, each matching node appears once. */
  lemma PositionsDistinct(nodes: seq<Node>, caption: string, output: string)
    requires UniqueNodeIds(nodes)
    ensures var r := Positions(nodes, caption, output);
      forall i, j :: 0 <= i < j < |r| ==> r[i] != r[j]
  {
    PositionsAmongDistinct(WithCaption(nodes, caption), output);
    var r := Positions(nodes, caption, output);
    assert r == PositionsAmong(WithCaption(nodes, caption), output);
    forall i, j | 0 <= i < j < |r| ensures r[i] != r[j] {
      assert r[i].node != r[j].node;
    }
  }

  // ---------------------------------------------------------------------
  // compareControls (src/utils.ts:17-37).

  /** Every control of `a` has a control with the same key on `b`, holding
      an equal value; controls only `b` has are not looked at. */
  predicate ControlsMatch(a: Record<Value>, b: Record<Value>)
  {
    forall k :: k in KeySet(a) ==> Lookup(b, k) == Lookup(a, k)
  }

  /** compareControls. A key of `a` always holds a control, so the source's
      two branches for an undefined control of `a` are unreachable and are
      not modelled. */
  method CompareControls(a: Node, b: Node) returns (r: bool)
    ensures r == ControlsMatch(a.controls, b.controls)
  {
    var keys := Keys(a.controls);
    for i := 0 to |keys|
      invariant forall k :: 0 <= k < i ==> Lookup(b.controls, keys[k]) == Lookup(a.controls, keys[k])
    {
      var controlA := Lookup(a.controls, keys[i]);
      var controlB := Lookup(b.controls, keys[i]);
      if controlB.None? {
        assert keys[i] in KeySet(a.controls);
        return false;
      }
      assert a.controls[i] in a.controls;
      if controlA.value != controlB.value {
        assert keys[i] in KeySet(a.controls);
        return false;
      }
    }
    forall k | k in KeySet(a.controls)
      ensures Lookup(b.controls, k) == Lookup(a.controls, k)
    {
      var i :| 0 <= i < |a.controls| && a.controls[i].key == k;
      assert keys[i] == k;
    }
    return true;
  }

  /** Controls only the second node has never make the comparison fail. */
  lemma ControlsMatchIgnoresExtra(a: Record<Value>, b: Record<Value>, extra: Record<Value>)
    requires ControlsMatch(a, b)
    ensures ControlsMatch(a, b + extra)
  {
    forall k | k in KeySet(a) ensures Lookup(b + extra, k) == Lookup(a, k) {
      LookupAppendAll(b, extra, k);
    }
  }

  lemma {:induction false} LookupAppendAll<V>(m: Record<V>, extra: Record<V>, k: string)
    requires k in KeySet(m)
    ensures Lookup(m + extra, k) == Lookup(m, k)
  {
    if m[0].key != k {
      assert (m + extra)[1..] == m[1..] + extra;
      var i :| 0 <= i < |m| && m[i].key == k;
      assert m[1..][i - 1].key == k;
      LookupAppendAll(m[1..], extra, k);
    }
  }

  /** The comparison is not symmetric. */
  lemma ControlsMatchAsymmetric(v: Value)
    ensures ControlsMatch([], [Entry("seed", v)])
    ensures !ControlsMatch([Entry("seed", v)], [])
  {
    var a: Record<Value> := [Entry("seed", v)];
    assert a[0].key in KeySet(a);
  }

  // ---------------------------------------------------------------------
  // findUnconnectedOutputs / findUnconnectedInputs (src/utils.ts:39-73).

  /** The outputs among `keys` of node `n` that no connection leaves from. */
  function FreeOutputsOf(n: Node, keys: seq<string>, cs: seq<Connection>): seq<OutputPosition>
  {
    if keys == [] then []
    else
      var k := keys[|keys| - 1];
      FreeOutputsOf(n, keys[..|keys| - 1], cs)
        + (if FindOutgoing(cs, n.id, k).None? then [OutputPosition(n.id, k)] else [])
  }

  /** The outputs of `nodes` (except the excluded ones) that no connection
      leaves from, in node order and then key order. */
  function UnconnectedOutputs(nodes: seq<Node>, cs: seq<Connection>, exclude: seq<NodeId>): seq<OutputPosition>
  {
    if nodes == [] then []
    else
      var n := nodes[|nodes| - 1];
      UnconnectedOutputs(nodes[..|nodes| - 1], cs, exclude)
        + (if n.id in exclude then [] else FreeOutputsOf(n, Keys(n.outputs), cs))
  }

  /** The inputs among `keys` of node `n` that no connection arrives at. */
  function FreeInputsOf(n: Node, keys: seq<string>, cs: seq<Connection>): seq<InputPosition>
  {
    if keys == [] then []
    else
      var k := keys[|keys| - 1];
      FreeInputsOf(n, keys[..|keys| - 1], cs)
        + (if FindIncoming(cs, n.id, k).None? then [InputPosition(n.id, k)] else [])
  }

  /** The inputs of `nodes` (except the excluded ones) that no connection
      arrives at, in node order and then key order. */
  function UnconnectedInputs(nodes: seq<Node>, cs: seq<Connection>, exclude: seq<NodeId>): seq<InputPosition>
  {
    if nodes == [] then []
    else
      var n := nodes[|nodes| - 1];
      UnconnectedInputs(nodes[..|nodes| - 1], cs, exclude)
        + (if n.id in exclude then [] else FreeInputsOf(n, Keys(n.inputs), cs))
  }

  /** findUnconnectedOutputs; excluded nodes are given by id (the source
      compares node objects, and ids are unique). */
  method FindUnconnectedOutputs(g: Graph, exclude: seq<NodeId>) returns (r: seq<OutputPosition>)
    ensures r == UnconnectedOutputs(g.nodes, g.connections, exclude)
  {
    r := [];
    for i := 0 to |g.nodes|
      invariant r == UnconnectedOutputs(g.nodes[..i], g.connections, exclude)
    {
      UnconnectedOutputsStep(g.nodes, i, g.connections, exclude);
      if g.nodes[i].id !in exclude {
        var free := FreeOutputs(g.nodes[i], g.connections);
        r := r + free;
      }
    }
    assert g.nodes[..|g.nodes|] == g.nodes;
  }

  /** The inner loop of findUnconnectedOutputs: the outputs of one node that no
      connection uses. */
  method FreeOutputs(node: Node, cs: seq<Connection>) returns (r: seq<OutputPosition>)
    ensures r == FreeOutputsOf(node, Keys(node.outputs), cs)
  {
    var keys := Keys(node.outputs);
    r := [];
    for k := 0 to |keys|
      invariant r == FreeOutputsOf(node, keys[..k], cs)
    {
      FreeOutputsStep(node, keys, k, cs);
      var connection := FindOutgoing(cs, node.id, keys[k]);
      if connection.None? {
        r := r + [OutputPosition(node.id, keys[k])];
      }
    }
    assert keys[..|keys|] == keys;
  }


  /** findUnconnectedInputs. */
  method FindUnconnectedInputs(g: Graph, exclude: seq<NodeId>) returns (r: seq<InputPosition>)
    ensures r == UnconnectedInputs(g.nodes, g.connections, exclude)
  {
    r := [];
    for i := 0 to |g.nodes|
      invariant r == UnconnectedInputs(g.nodes[..i], g.connections, exclude)
    {
      UnconnectedInputsStep(g.nodes, i, g.connections, exclude);
      if g.nodes[i].id !in exclude {
        var free := FreeInputs(g.nodes[i], g.connections);
        r := r + free;
      }
    }
    assert g.nodes[..|g.nodes|] == g.nodes;
  }

  /** The inner loop of findUnconnectedInputs: the inputs of one node that no
      connection uses. */
  method FreeInputs(node: Node, cs: seq<Connection>) returns (r: seq<InputPosition>)
    ensures r == FreeInputsOf(node, Keys(node.inputs), cs)
  {
    var keys := Keys(node.inputs);
    r := [];
    for k := 0 to |keys|
      invariant r == FreeInputsOf(node, keys[..k], cs)
    {
      FreeInputsStep(node, keys, k, cs);
      var connection := FindIncoming(cs, node.id, keys[k]);
      if connection.None? {
        r := r + [InputPosition(node.id, keys[k])];
      }
    }
    assert keys[..|keys|] == keys;
  }


  /** One more key for the inner loop of findUnconnectedOutputs. */
  lemma FreeOutputsStep(n: Node, keys: seq<string>, k: nat, cs: seq<Connection>)
    requires k < |keys|
    ensures FreeOutputsOf(n, keys[..k + 1], cs) == FreeOutputsOf(n, keys[..k], cs) +
      (if FindOutgoing(cs, n.id, keys[k]).None? then [OutputPosition(n.id, keys[k])] else [])
  {
    assert keys[..k + 1][..k] == keys[..k];
  }

  /** One more key for the inner loop of findUnconnectedInputs. */
  lemma FreeInputsStep(n: Node, keys: seq<string>, k: nat, cs: seq<Connection>)
    requires k < |keys|
    ensures FreeInputsOf(n, keys[..k + 1], cs) == FreeInputsOf(n, keys[..k], cs) +
      (if FindIncoming(cs, n.id, keys[k]).None? then [InputPosition(n.id, keys[k])] else [])
  {
    assert keys[..k + 1][..k] == keys[..k];
  }

  /** One more node for the outer loop of findUnconnectedOutputs. */
  lemma UnconnectedOutputsStep(nodes: seq<Node>, i: nat, cs: seq<Connection>, exclude: seq<NodeId>)
    requires i < |nodes|
    ensures UnconnectedOutputs(nodes[..i + 1], cs, exclude) == UnconnectedOutputs(nodes[..i], cs, exclude) +
      (if nodes[i].id in exclude then [] else FreeOutputsOf(nodes[i], Keys(nodes[i].outputs), cs))
  {
    assert nodes[..i + 1][..i] == nodes[..i];
  }

  /** One more node for the outer loop of findUnconnectedInputs. */
  lemma UnconnectedInputsStep(nodes: seq<Node>, i: nat, cs: seq<Connection>, exclude: seq<NodeId>)
    requires i < |nodes|
    ensures UnconnectedInputs(nodes[..i + 1], cs, exclude) == UnconnectedInputs(nodes[..i], cs, exclude) +
      (if nodes[i].id in exclude then [] else FreeInputsOf(nodes[i], Keys(nodes[i].inputs), cs))
  {
    assert nodes[..i + 1][..i] == nodes[..i];
  }

  lemma {:induction false} FreeOutputsOfMembership(n: Node, keys: seq<string>, cs: seq<Connection>, p: OutputPosition)
    ensures p in FreeOutputsOf(n, keys, cs) <==>
      p.node == n.id && p.output in keys && FindOutgoing(cs, n.id, p.output).None?
  {
    if keys != [] {
      var init := keys[..|keys| - 1];
      FreeOutputsOfMembership(n, init, cs, p);
      assert forall k :: k in keys <==> k in init || k == keys[|keys| - 1];
    }
  }

  lemma {:induction false} FreeInputsOfMembership(n: Node, keys: seq<string>, cs: seq<Connection>, p: InputPosition)
    ensures p in FreeInputsOf(n, keys, cs) <==>
      p.node == n.id && p.input in keys && FindIncoming(cs, n.id, p.input).None?
  {
    if keys != [] {
      var init := keys[..|keys| - 1];
      FreeInputsOfMembership(n, init, cs, p);
      assert forall k :: k in keys <==> k in init || k == keys[|keys| - 1];
    }
  }

  /** An output is reported exactly when its node is not excluded and no
      connection leaves from it (soundness and completeness). */
  lemma {:induction false} UnconnectedOutputsMembership(nodes: seq<Node>, cs: seq<Connection>, exclude: seq<NodeId>, p: OutputPosition)
    ensures p in UnconnectedOutputs(nodes, cs, exclude) <==>
      (exists n :: n in nodes && n.id == p.node && n.id !in exclude && p.output in KeySet(n.outputs)) &&
      forall c :: c in cs ==> !(c.source == p.node && c.sourceOutput == p.output)
  {
    if nodes != [] {
      var init := nodes[..|nodes| - 1];
      var n := nodes[|nodes| - 1];
      UnconnectedOutputsMembership(init, cs, exclude, p);
      FreeOutputsOfMembership(n, Keys(n.outputs), cs, p);
      KeysMembership(n.outputs, p.output);
      assert forall m :: m in nodes <==> m in init || m == n;
    }
  }

  /** An input is reported exactly when its node is not excluded and no
      connection arrives at it (soundness and completeness). */
  lemma {:induction false} UnconnectedInputsMembership(nodes: seq<Node>, cs: seq<Connection>, exclude: seq<NodeId>, p: InputPosition)
    ensures p in UnconnectedInputs(nodes, cs, exclude) <==>
      (exists n :: n in nodes && n.id == p.node && n.id !in exclude && p.input in KeySet(n.inputs)) &&
      forall c :: c in cs ==> !(c.target == p.node && c.targetInput == p.input)
  {
    if nodes != [] {
      var init := nodes[..|nodes| - 1];
      var n := nodes[|nodes| - 1];
      UnconnectedInputsMembership(init, cs, exclude, p);
      FreeInputsOfMembership(n, Keys(n.inputs), cs, p);
      KeysMembership(n.inputs, p.input);
      assert forall m :: m in nodes <==> m in init || m == n;
    }
  }
}
