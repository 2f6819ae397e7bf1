/** The final summary: results grouped by experiment, side by side. */
module Summary {
  import opened Results

  /** One printed line; an entry keeps the position of its result in the input. */
  datatype Line = Heading(name: string) | Entry(index: nat, result: BenchmarkResult)

  /** The experiment names in order of first appearance. */
  function Names(results: seq<BenchmarkResult>): seq<string> {
    if results == [] then []
    else
      var before, name := Names(results[..|results| - 1]), results[|results| - 1].experimentName;
      if name in before then before else before + [name]
  }

  /** The positions below n of the results of one experiment. */
  function Positions(results: seq<BenchmarkResult>, name: string, n: nat): seq<nat>
    requires n <= |results|
  {
    if n == 0 then []
    else Positions(results, name, n - 1) + (if results[n - 1].experimentName == name then [n - 1] else [])
  }

  /** The order in which the summary shows the input positions, for these experiment names. */
  function Order(results: seq<BenchmarkResult>, names: seq<string>): seq<nat> {
    if names == [] then []
    else Order(results, names[..|names| - 1]) + Positions(results, names[|names| - 1], |results|)
  }

  function Entries(results: seq<BenchmarkResult>, positions: seq<nat>): seq<Line>
    requires forall p :: p in positions ==> p < |results|
  {
    seq(|positions|, i requires 0 <= i < |positions| =>
      assert positions[i] in positions; Entry(positions[i], results[positions[i]]))
  }

  function Lines(results: seq<BenchmarkResult>, names: seq<string>): seq<Line> {
    if names == [] then []
    else
      var name := names[|names| - 1];
      PositionsMembers(results, name, |results|);
      Lines(results, names[..|names| - 1]) + [Heading(name)] + Entries(results, Positions(results, name, |results|))
  }

  class SummaryPrinter {
    constructor () {}

    method CollectNames(results: seq<BenchmarkResult>) returns (names: seq<string>)
      ensures names == Names(results)
    {
      names := [];
      for i := 0 to |results|
        invariant names == Names(results[..i])
      {
        assert results[..i + 1][..i] == results[..i];
        if results[i].experimentName !in names {
          names := names + [results[i].experimentName];
        }
      }
      assert results[..|results|] == results;
    }

    method PrintGroup(results: seq<BenchmarkResult>, name: string) returns (lines: seq<Line>)
      ensures forall p :: p in Positions(results, name, |results|) ==> p < |results|
      ensures lines == Entries(results, Positions(results, name, |results|))
    {
      lines := [];
      PositionsMembers(results, name, 0);
      for i := 0 to |results|
        invariant forall p :: p in Positions(results, name, i) ==> p < |results|
        invariant lines == Entries(results, Positions(results, name, i))
      {
        PositionsMembers(results, name, i + 1);
        if results[i].experimentName != name {
          continue;
        }
        lines := lines + [Entry(i, results[i])];
      }
    }

    method PrintFinalSummary(results: seq<BenchmarkResult>) returns (lines: seq<Line>)
      ensures lines == Lines(results, Names(results))
    {
      lines := [];
      if results == [] {
        return;
      }
      var names := CollectNames(results);
      for k := 0 to |names|
        invariant lines == Lines(results, names[..k])
      {
        assert names[..k + 1][..k] == names[..k];
        var group := PrintGroup(results, names[k]);
        lines := lines + [Heading(names[k])] + group;
      }
      assert names[..|names|] == names;
    }
  }

  // ----- what the order is -----

  lemma {:induction false} PositionsMembers(results: seq<BenchmarkResult>, name: string, n: nat)
    requires n <= |results|
    ensures forall p: nat :: p in Positions(results, name, n) <==> p < n && results[p].experimentName == name
  {
    if n > 0 {
      PositionsMembers(results, name, n - 1);
    }
  }

  ghost predicate Ascending(ps: seq<nat>) {
    forall a, b :: 0 <= a < b < |ps| ==> ps[a] < ps[b]
  }

  lemma {:induction false} PositionsAscend(results: seq<BenchmarkResult>, name: string, n: nat)
    requires n <= |results|
    ensures Ascending(Positions(results, name, n))
  {
    if n > 0 {
      var before := Positions(results, name, n - 1);
      PositionsAscend(results, name, n - 1);
      PositionsMembers(results, name, n - 1);
      forall a | 0 <= a < |before| ensures before[a] < n - 1 {
        assert before[a] in before;
      }
    }
  }

  /** The position where an experiment first appears; |results| when it never does. */
  function First(results: seq<BenchmarkResult>, name: string): (i: nat)
    ensures i <= |results|
    ensures i < |results| ==> results[i].experimentName == name
    ensures forall j :: 0 <= j < i ==> results[j].experimentName != name
  {
    if results == [] then 0
    else
      var i := First(results[..|results| - 1], name);
      if i < |results| - 1 || results[|results| - 1].experimentName == name then i else |results|
  }

  /** Names lists every experiment of the input once, earlier appearances first. */
  lemma {:induction false} NamesByFirst(results: seq<BenchmarkResult>)
    ensures forall name :: name in Names(results) <==> First(results, name) < |results|
    ensures ByFirst(results, Names(results))
  {
    if results != [] {
      var n := |results| - 1;
      var before, last := Names(results[..n]), results[n].experimentName;
      NamesByFirst(results[..n]);
      forall name ensures name in Names(results) <==> First(results, name) < |results| {
        FirstGrows(results, name);
      }
      forall a | 0 <= a < |before| ensures First(results, before[a]) == First(results[..n], before[a]) < n {
        assert before[a] in before;
        FirstGrows(results, before[a]);
      }
      assert ByFirst(results, before);
      if last !in before {
        FirstGrows(results, last);
        assert ByFirst(results, before + [last]);
      }
    }
  }

  ghost predicate ByFirst(results: seq<BenchmarkResult>, names: seq<string>) {
    forall a, b :: 0 <= a < b < |names| ==> First(results, names[a]) < First(results, names[b])
  }

  lemma FirstGrows(results: seq<BenchmarkResult>, name: string)
    requires results != []
    ensures var n := |results| - 1;
            First(results, name) == if First(results[..n], name) < n then First(results[..n], name)
                                    else if results[n].experimentName == name then n else n + 1
  {}

  /** Earlier in the summary: a group whose experiment appears earlier, or the same group and an
      earlier input position. */
  ghost predicate ShownBefore(results: seq<BenchmarkResult>, p: nat, q: nat)
    requires p < |results| && q < |results|
  {
    var fp, fq := First(results, results[p].experimentName), First(results, results[q].experimentName);
    fp < fq || (fp == fq && p < q)
  }

  lemma {:induction false} OrderMember(results: seq<BenchmarkResult>, names: seq<string>, p: nat)
    ensures p in Order(results, names) <==> p < |results| && results[p].experimentName in names
  {
    if names != [] {
      var before, name := names[..|names| - 1], names[|names| - 1];
      OrderMember(results, before, p);
      PositionsMember(results, name, p);
      assert names == before + [name];
    }
  }

  lemma PositionsMember(results: seq<BenchmarkResult>, name: string, p: nat)
    ensures p in Positions(results, name, |results|) <==> p < |results| && results[p].experimentName == name
  {
    PositionsMembers(results, name, |results|);
  }

  /** Positions listed in the order of the summary. */
  ghost predicate InOrder(results: seq<BenchmarkResult>, ps: seq<nat>) {
    && (forall a :: 0 <= a < |ps| ==> ps[a] < |results|)
    && (forall a, b :: 0 <= a < b < |ps| ==> ShownBefore(results, ps[a], ps[b]))
  }

  lemma GroupInOrder(results: seq<BenchmarkResult>, name: string)
    ensures InOrder(results, Positions(results, name, |results|))
  {
    var ps := Positions(results, name, |results|);
    PositionsAscend(results, name, |results|);
    PositionsMembers(results, name, |results|);
    forall a | 0 <= a < |ps| ensures ps[a] < |results| && results[ps[a]].experimentName == name {
      assert ps[a] in ps;
    }
  }

  lemma InOrderConcat(results: seq<BenchmarkResult>, a: seq<nat>, b: seq<nat>)
    requires InOrder(results, a) && InOrder(results, b)
    requires forall i, j :: 0 <= i < |a| && 0 <= j < |b| ==> ShownBefore(results, a[i], b[j])
    ensures InOrder(results, a + b)
  {
    var c := a + b;
    forall i, j | 0 <= i < j < |c| ensures ShownBefore(results, c[i], c[j]) {
      if j < |a| {
        assert c[i] == a[i] && c[j] == a[j];
      } else if i < |a| {
        assert c[i] == a[i] && c[j] == b[j - |a|];
      } else {
        assert c[i] == b[i - |a|] && c[j] == b[j - |a|];
      }
    }
  }

  lemma {:induction false} OrderAscends(results: seq<BenchmarkResult>, names: seq<string>)
    requires ByFirst(results, names)
    ensures InOrder(results, Order(results, names))
  {
    if names != [] {
      var n := |names| - 1;
      var before, group := Order(results, names[..n]), Positions(results, names[n], |results|);
      OrderAscends(results, names[..n]);
      GroupInOrder(results, names[n]);
      forall i, j | 0 <= i < |before| && 0 <= j < |group| ensures ShownBefore(results, before[i], group[j]) {
        EarlierGroup(results, names, before[i], group[j]);
      }
      InOrderConcat(results, before, group);
    }
  }

  lemma EarlierGroup(results: seq<BenchmarkResult>, names: seq<string>, p: nat, q: nat)
    requires ByFirst(results, names) && names != []
    requires p in Order(results, names[..|names| - 1])
    requires q in Positions(results, names[|names| - 1], |results|)
    ensures p < |results| && q < |results| && ShownBefore(results, p, q)
  {
    OrderMember(results, names[..|names| - 1], p);
    PositionsMember(results, names[|names| - 1], q);
  }

  /** Each result is shown exactly once, and the order is the stable grouping of the input: groups in
      order of first appearance, input order inside each group. */
  lemma StableGrouping(results: seq<BenchmarkResult>)
    ensures var ord := Order(results, Names(results));
            && InOrder(results, ord)
            && (forall p: nat :: p in ord <==> p < |results|)
            && (forall a, b :: 0 <= a < b < |ord| ==> ord[a] != ord[b])
  {
    var ord := Order(results, Names(results));
    NamesByFirst(results);
    OrderAscends(results, Names(results));
    forall p: nat ensures p in ord <==> p < |results| {
      OrderMember(results, Names(results), p);
      assert p < |results| ==> First(results, results[p].experimentName) <= p;
    }
    forall a, b | 0 <= a < b < |ord| ensures ord[a] != ord[b] {
      assert ShownBefore(results, ord[a], ord[b]);
    }
  }

  /** The entries among the printed lines are the results in that order. */
  function Shown(lines: seq<Line>): seq<nat> {
    if lines == [] then []
    else Shown(lines[..|lines| - 1]) + (if lines[|lines| - 1].Entry? then [lines[|lines| - 1].index] else [])
  }

  lemma {:induction false} ShownConcat(a: seq<Line>, b: seq<Line>)
    ensures Shown(a + b) == Shown(a) + Shown(b)
  {
    if b == [] {
      assert a + b == a;
    } else {
      ShownConcat(a, b[..|b| - 1]);
      assert (a + b)[..|a + b| - 1] == a + b[..|b| - 1];
    }
  }

  lemma {:induction false} ShownEntries(results: seq<BenchmarkResult>, positions: seq<nat>)
    requires forall p :: p in positions ==> p < |results|
    ensures Shown(Entries(results, positions)) == positions
  {
    if positions != [] {
      var n := |positions| - 1;
      assert forall p :: p in positions[..n] ==> p in positions;
      ShownEntries(results, positions[..n]);
      assert Entries(results, positions)[..n] == Entries(results, positions[..n]);
      assert positions == positions[..n] + [positions[n]];
    }
  }

  function Group(results: seq<BenchmarkResult>, name: string): (group: seq<Line>)
    ensures Shown(group) == Positions(results, name, |results|)
  {
    PositionsMembers(results, name, |results|);
    ShownEntries(results, Positions(results, name, |results|));
    Entries(results, Positions(results, name, |results|))
  }

  lemma ShownGroup(before: seq<Line>, name: string, group: seq<Line>)
    ensures Shown(before + [Heading(name)] + group) == Shown(before) + Shown(group)
  {
    ShownConcat(before + [Heading(name)], group);
    ShownConcat(before, [Heading(name)]);
    assert [Heading(name)][..0] == [] && Shown([Heading(name)]) == [];
    assert Shown(before) + [] == Shown(before);
  }

  /** The printed lines show the results in that order, whatever the names. */
  lemma {:induction false} LinesShowOrder(results: seq<BenchmarkResult>, names: seq<string>)
    ensures Shown(Lines(results, names)) == Order(results, names)
  {
    if names != [] {
      var before, name := names[..|names| - 1], names[|names| - 1];
      LinesShowOrder(results, before);
      ShownGroup(Lines(results, before), name, Group(results, name));
    }
  }

  // ----- headings -----

  /** The heading that the next line stands under. */
  function CurrentHeading(lines: seq<Line>): string {
    if lines == [] then ""
    else if lines[|lines| - 1].Heading? then lines[|lines| - 1].name
    else CurrentHeading(lines[..|lines| - 1])
  }

  function Headings(lines: seq<Line>): seq<string> {
    if lines == [] then []
    else Headings(lines[..|lines| - 1]) + (if lines[|lines| - 1].Heading? then [lines[|lines| - 1].name] else [])
  }

  /** Every entry shows the result at its position, under the heading of its own experiment. */
  ghost predicate UnderOwnHeading(results: seq<BenchmarkResult>, lines: seq<Line>) {
    forall k :: 0 <= k < |lines| && lines[k].Entry? ==>
      && lines[k].index < |results| && lines[k].result == results[lines[k].index]
      && CurrentHeading(lines[..k]) == lines[k].result.experimentName
  }

  lemma AppendLine(results: seq<BenchmarkResult>, lines: seq<Line>, line: Line)
    requires UnderOwnHeading(results, lines)
    requires line.Entry? ==>
               && line.index < |results| && line.result == results[line.index]
               && CurrentHeading(lines) == line.result.experimentName
    ensures UnderOwnHeading(results, lines + [line])
    ensures CurrentHeading(lines + [line]) == if line.Heading? then line.name else CurrentHeading(lines)
    ensures Headings(lines + [line]) == Headings(lines) + (if line.Heading? then [line.name] else [])
  {
    var more := lines + [line];
    assert more[..|lines|] == lines;
    forall k | 0 <= k < |lines| ensures more[..k] == lines[..k] && more[k] == lines[k] {}
  }

  lemma EntriesGrow(results: seq<BenchmarkResult>, lines: seq<Line>, positions: seq<nat>)
    requires positions != [] && forall p :: p in positions ==> p < |results|
    ensures var n := |positions| - 1;
            && (forall p :: p in positions[..n] ==> p in positions) && positions[n] in positions
            && lines + Entries(results, positions)
               == (lines + Entries(results, positions[..n])) + [Entry(positions[n], results[positions[n]])]
  {
    var n := |positions| - 1;
    assert forall p :: p in positions[..n] ==> p in positions;
    assert positions[n] in positions;
    assert Entries(results, positions)
        == Entries(results, positions[..n]) + [Entry(positions[n], results[positions[n]])];
  }

  /** Under a heading, and after these headings. */
  ghost predicate Under(results: seq<BenchmarkResult>, lines: seq<Line>, name: string, headings: seq<string>) {
    UnderOwnHeading(results, lines) && CurrentHeading(lines) == name && Headings(lines) == headings
  }

  lemma AppendEntry(results: seq<BenchmarkResult>, lines: seq<Line>, p: nat, name: string, headings: seq<string>)
    requires Under(results, lines, name, headings) && p < |results| && results[p].experimentName == name
    ensures Under(results, lines + [Entry(p, results[p])], name, headings)
  {
    AppendLine(results, lines, Entry(p, results[p]));
    assert Headings(lines) + [] == Headings(lines);
  }

  /** A group of entries after a heading stands under it. */
  lemma {:induction false} AppendEntries(results: seq<BenchmarkResult>, lines: seq<Line>, positions: seq<nat>,
                                         name: string, headings: seq<string>)
    requires Under(results, lines, name, headings)
    requires forall p :: p in positions ==> p < |results| && results[p].experimentName == name
    ensures Under(results, lines + Entries(results, positions), name, headings)
  {
    if positions == [] {
      assert lines + Entries(results, positions) == lines;
    } else {
      var n := |positions| - 1;
      EntriesGrow(results, lines, positions);
      AppendEntries(results, lines, positions[..n], name, headings);
      AppendEntry(results, lines + Entries(results, positions[..n]), positions[n], name, headings);
    }
  }

  lemma AppendGroup(results: seq<BenchmarkResult>, lines: seq<Line>, name: string, headings: seq<string>)
    requires Headed(results, lines, headings)
    ensures Headed(results, lines + [Heading(name)] + Group(results, name), headings + [name])
  {
    PositionsMembers(results, name, |results|);
    AppendLine(results, lines, Heading(name));
    AppendEntries(results, lines + [Heading(name)], Positions(results, name, |results|), name, headings + [name]);
  }

  /** Entries under their own headings, and just these headings. */
  ghost predicate Headed(results: seq<BenchmarkResult>, lines: seq<Line>, headings: seq<string>) {
    UnderOwnHeading(results, lines) && Headings(lines) == headings
  }

  lemma LinesGrow(results: seq<BenchmarkResult>, names: seq<string>)
    requires names != []
    ensures var n := |names| - 1;
            Lines(results, names) == Lines(results, names[..n]) + [Heading(names[n])] + Group(results, names[n])
  {}

  lemma NextHeading(results: seq<BenchmarkResult>, names: seq<string>, before: seq<Line>, lines: seq<Line>)
    requires names != [] && Headed(results, before, names[..|names| - 1])
    requires lines == before + [Heading(names[|names| - 1])] + Group(results, names[|names| - 1])
    ensures Headed(results, lines, names)
  {
    var n := |names| - 1;
    AppendGroup(results, before, names[n], names[..n]);
    assert names[..n] + [names[n]] == names;
  }

  lemma {:induction false} LinesHeaded(results: seq<BenchmarkResult>, names: seq<string>, lines: seq<Line>)
    requires lines == Lines(results, names)
    ensures Headed(results, lines, names)
    decreases |names|
  {
    if names != [] {
      var n := |names| - 1;
      var before := Lines(results, names[..n]);
      LinesHeaded(results, names[..n], before);
      LinesGrow(results, names);
      NextHeading(results, names, before, lines);
    }
  }

  /** Each heading is printed once, in the order of the names, and each entry under its own. */
  lemma {:induction false} LinesUnderHeadings(results: seq<BenchmarkResult>, names: seq<string>)
    ensures UnderOwnHeading(results, Lines(results, names)) && Headings(Lines(results, names)) == names
  {
    LinesHeaded(results, names, Lines(results, names));
  }

  /** The summary prints each experiment's heading exactly once. */
  lemma HeadingsOnce(results: seq<BenchmarkResult>)
    ensures var shown := Headings(Lines(results, Names(results)));
            && (forall a, b :: 0 <= a < b < |shown| ==> shown[a] != shown[b])
            && (forall i :: 0 <= i < |results| ==> results[i].experimentName in shown)
            && (forall name :: name in shown ==> exists i :: 0 <= i < |results| && results[i].experimentName == name)
  {
    LinesUnderHeadings(results, Names(results));
    NamesByFirst(results);
    var names := Names(results);
    forall a, b | 0 <= a < b < |names| ensures names[a] != names[b] {
      assert First(results, names[a]) < First(results, names[b]);
    }
    forall i | 0 <= i < |results| ensures results[i].experimentName in names {
      assert First(results, results[i].experimentName) <= i;
    }
    forall name | name in names ensures exists i :: 0 <= i < |results| && results[i].experimentName == name {
      assert results[First(results, name)].experimentName == name;
    }
  }
}
