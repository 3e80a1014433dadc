/** The generator's cage colouring: cages that touch are linked, the cages
    are visited from most to fewest neighbours, and a backtracking search
    gives each one of four colours that none of its already coloured
    neighbours wears. When the search fails, a greedy pass assigns every
    cage the first colour its coloured neighbours leave free (wrapping to
    the first colour when none is free). */
module CageColoring {
  import opened KillerTypes
  import opened LevelValidator

  /** The four colours the generator paints cages with. */
  const OptimalColors: seq<string> := ["blue.100", "yellow.100", "pink.100", "green.100"]

  lemma OptimalColorsFacts()
    ensures |OptimalColors| == 4 && NoRepeats(OptimalColors)
    ensures forall k :: 0 <= k < 4 ==> OptimalColors[k] in ValidColors
  {
    assert OptimalColors[0][0] == 'b' && OptimalColors[1][0] == 'y';
    assert OptimalColors[2][0] == 'p' && OptimalColors[3][0] == 'g';
    assert OptimalColors[0] == ValidColors[1] && OptimalColors[1] == ValidColors[3];
    assert OptimalColors[2] == ValidColors[0] && OptimalColors[3] == ValidColors[2];
  }

  // ---------------------------------------------------------------- graph

  /** `s` lists exactly the other cages that cage `i` touches, each once. */
  ghost predicate NeighboursOf(cages: seq<Cage>, i: int, s: seq<int>)
    requires 0 <= i < |cages|
  {
    NoRepeats(s) && forall j :: j in s <==> 0 <= j < |cages| && j != i && AreCagesAdjacent(cages[i], cages[j])
  }

  /** `adj` is the adjacency list of the cages. */
  ghost predicate AdjacencyOf(adj: seq<seq<int>>, cages: seq<Cage>)
  {
    |adj| == |cages| && forall i :: 0 <= i < |cages| ==> NeighboursOf(cages, i, adj[i])
  }

  /** An undirected graph on 0..|adj|-1 without self loops. */
  ghost predicate Graph(adj: seq<seq<int>>)
  {
    forall i, j :: 0 <= i < |adj| && j in adj[i] ==> 0 <= j < |adj| && j != i && i in adj[j]
  }

  /** Builds the adjacency lists, one cage against every other; each list
      holds its neighbours in increasing order, the order in which they
      were added to the neighbour set. */
  method BuildAdjacency(cages: seq<Cage>) returns (adj: seq<seq<int>>)
    ensures AdjacencyOf(adj, cages)
  {
    adj := [];
    var i := 0;
    while i < |cages|
      invariant 0 <= i <= |cages| && |adj| == i
      invariant forall i' :: 0 <= i' < i ==> NeighboursOf(cages, i', adj[i'])
    {
      var neighbours: seq<int> := [];
      var j := 0;
      while j < |cages|
        invariant 0 <= j <= |cages| && NoRepeats(neighbours)
        invariant forall j' :: j' in neighbours <==> 0 <= j' < j && j' != i && AreCagesAdjacent(cages[i], cages[j'])
      {
        if i != j && AreCagesAdjacent(cages[i], cages[j]) {
          NoRepeatsSnoc(neighbours, j);
          neighbours := neighbours + [j];
        }
        j := j + 1;
      }
      adj := adj + [neighbours];
      i := i + 1;
    }
  }

  /** The adjacency list of any cage list is an undirected graph. */
  lemma AdjacencyIsGraph(adj: seq<seq<int>>, cages: seq<Cage>)
    requires AdjacencyOf(adj, cages)
    ensures Graph(adj)
  {
    forall i, j | 0 <= i < |adj| && j in adj[i] ensures 0 <= j < |adj| && j != i && i in adj[j] {
      assert NeighboursOf(cages, i, adj[i]);
      assert NeighboursOf(cages, j, adj[j]);
      CagesAdjacentSymmetric(cages[i], cages[j]);
    }
  }

  // ---------------------------------------------------------------- order

  /** Cage `a` is visited before cage `b`: it has more neighbours, or as many
      and a smaller index (the sort by neighbour count is stable). */
  predicate Before(adj: seq<seq<int>>, a: int, b: int)
  {
    0 <= a < |adj| && 0 <= b < |adj| && (|adj[a]| > |adj[b]| || (|adj[a]| == |adj[b]| && a < b))
  }

  predicate Ordered(adj: seq<seq<int>>, s: seq<int>)
  {
    forall i, j :: 0 <= i < j < |s| ==> Before(adj, s[i], s[j])
  }

  predicate Indices(s: seq<int>, n: int)
  {
    forall k :: 0 <= k < |s| ==> 0 <= s[k] < n
  }

  /** Puts `x` in front of the first element it is visited before. */
  function Insert(adj: seq<seq<int>>, s: seq<int>, x: int): (r: seq<int>)
    requires 0 <= x < |adj| && Indices(s, |adj|)
    ensures |r| == |s| + 1 && multiset(r) == multiset(s) + multiset{x} && Indices(r, |adj|)
    ensures forall y :: y in r <==> y in s || y == x
  {
    if s == [] then [x]
    else if Before(adj, x, s[0]) then [x] + s
    else
      assert s == [s[0]] + s[1..];
      [s[0]] + Insert(adj, s[1..], x)
  }

  /** Inserting a new index into an ordered list keeps it ordered. */
  lemma {:induction false} InsertOrdered(adj: seq<seq<int>>, s: seq<int>, x: int)
    requires 0 <= x < |adj| && Indices(s, |adj|) && Ordered(adj, s) && x !in s
    ensures Ordered(adj, Insert(adj, s, x))
  {
    if s != [] && !Before(adj, x, s[0]) {
      var t := Insert(adj, s[1..], x);
      InsertOrdered(adj, s[1..], x);
      forall k | 0 <= k < |t| ensures Before(adj, s[0], t[k]) {
        assert t[k] in t;
        if t[k] != x {
          var m :| 0 <= m < |s[1..]| && s[1..][m] == t[k];
          assert s[m + 1] == t[k];
        }
      }
      ConsOrdered(adj, s[0], t);
    }
  }

  /** An ordered list stays ordered behind a head visited before all of it. */
  lemma ConsOrdered(adj: seq<seq<int>>, h: int, t: seq<int>)
    requires Ordered(adj, t) && forall k :: 0 <= k < |t| ==> Before(adj, h, t[k])
    ensures Ordered(adj, [h] + t)
  {
    var r := [h] + t;
    forall i, j | 0 <= i < j < |r| ensures Before(adj, r[i], r[j]) {
      if i > 0 {
        assert r[i] == t[i - 1] && r[j] == t[j - 1];
      }
    }
  }

  /** Cages 0..m-1 listed by falling neighbour count. */
  function SortByDegree(adj: seq<seq<int>>, m: int): (r: seq<int>)
    requires 0 <= m <= |adj|
    ensures |r| == m && Indices(r, m)
    ensures forall i :: 0 <= i < m ==> i in r
  {
    if m == 0 then []
    else
      var r := Insert(adj, SortByDegree(adj, m - 1), m - 1);
      assert forall k :: 0 <= k < |r| ==> r[k] in r;
      r
  }

  /** The list is in visiting order. */
  lemma {:induction false} SortByDegreeOrdered(adj: seq<seq<int>>, m: int)
    requires 0 <= m <= |adj|
    ensures Ordered(adj, SortByDegree(adj, m))
  {
    if m > 0 {
      SortByDegreeOrdered(adj, m - 1);
      InsertOrdered(adj, SortByDegree(adj, m - 1), m - 1);
    }
  }

  /** `order` lists every index 0..n-1 exactly once. */
  predicate IsOrder(order: seq<int>, n: int)
  {
    |order| == n && NoRepeats(order) && Indices(order, n) && forall i :: 0 <= i < n ==> i in order
  }

  /** The visiting order of the colouring: every cage once, most neighbours first. */
  function OrderByDegree(adj: seq<seq<int>>): (order: seq<int>)
    ensures IsOrder(order, |adj|) && Ordered(adj, order)
  {
    var r := SortByDegree(adj, |adj|);
    SortByDegreeOrdered(adj, |adj|);
    assert NoRepeats(r) by {
      forall i, j | 0 <= i < j < |r| ensures r[i] != r[j] {
        assert Before(adj, r[i], r[j]);
      }
    }
    r
  }

  // ---------------------------------------------------------------- colourings

  /** Every cage has one of the four colours 0..3. */
  predicate Coloring(col: seq<int>, n: int)
  {
    |col| == n && forall i :: 0 <= i < n ==> 0 <= col[i] < 4
  }

  /** No two linked cages that are both coloured (not -1) share a colour. */
  ghost predicate Proper(adj: seq<seq<int>>, col: seq<int>)
  {
    |col| == |adj| &&
    forall i, j :: 0 <= i < |adj| && j in adj[i] && 0 <= j < |adj| && col[i] != -1 && col[j] != -1 ==> col[i] != col[j]
  }

  /** `col` keeps every colour already given in `a`. */
  predicate Extends(col: seq<int>, a: seq<int>)
  {
    |col| == |a| && forall i :: 0 <= i < |a| && a[i] != -1 ==> col[i] == a[i]
  }

  /** The cages visited before position `idx` are coloured, the others are not. */
  predicate Partial(a: seq<int>, order: seq<int>, idx: int)
    requires Indices(order, |a|) && 0 <= idx <= |order|
  {
    (forall k :: 0 <= k < idx ==> 0 <= a[order[k]] < 4) &&
    (forall k :: idx <= k < |order| ==> a[order[k]] == -1)
  }

  /** No full colouring that keeps the colours in `a` is proper. */
  ghost predicate NoProperExtension(adj: seq<seq<int>>, a: seq<int>)
  {
    forall col :: Coloring(col, |a|) && Extends(col, a) ==> !Proper(adj, col)
  }

  /** The colours worn by the coloured cages among `nbs`. */
  ghost function ColorsOf(a: seq<int>, nbs: seq<int>): set<int>
  {
    set nb | nb in nbs && 0 <= nb < |a| && a[nb] != -1 :: a[nb]
  }

  /** The colours worn by the coloured neighbours of `cur`. */
  ghost function ColorsAround(adj: seq<seq<int>>, a: seq<int>, cur: int): set<int>
    requires 0 <= cur < |adj|
  {
    ColorsOf(a, adj[cur])
  }

  lemma ColorsOfSnoc(a: seq<int>, nbs: seq<int>, nb: int)
    ensures ColorsOf(a, nbs + [nb]) == ColorsOf(a, nbs) + (if 0 <= nb < |a| && a[nb] != -1 then {a[nb]} else {})
  {
  }

  /** Collects the colours of the coloured neighbours of `cur`. */
  method UsedColors(adj: seq<seq<int>>, a: array<int>, cur: int) returns (used: set<int>)
    requires 0 <= cur < |adj| && a.Length == |adj|
    ensures used == ColorsAround(adj, a[..], cur)
  {
    used := {};
    var nbs := adj[cur];
    var t := 0;
    while t < |nbs|
      invariant 0 <= t <= |nbs| && used == ColorsOf(a[..], nbs[..t])
    {
      var nb := nbs[t];
      ColorsOfSnoc(a[..], nbs[..t], nb);
      assert nbs[..t + 1] == nbs[..t] + [nb];
      if 0 <= nb < a.Length && a[nb] != -1 {
        used := used + {a[nb]};
      }
      t := t + 1;
    }
    assert nbs[..t] == nbs;
  }

  /** A colour a neighbour already wears cannot go on `cur`. */
  lemma ColorTaken(adj: seq<seq<int>>, a: seq<int>, cur: int, color: int, col: seq<int>)
    requires |a| == |adj| && 0 <= cur < |adj| && color in ColorsAround(adj, a, cur)
    requires Coloring(col, |a|) && Extends(col, a) && col[cur] == color
    ensures !Proper(adj, col)
  {
    var nb :| nb in adj[cur] && 0 <= nb < |a| && a[nb] != -1 && a[nb] == color;
    assert col[nb] == color;
  }

  /** Giving the next cage a colour its neighbours leave free keeps the partial colouring proper. */
  lemma PlaceKeepsProper(adj: seq<seq<int>>, a: seq<int>, cur: int, color: int)
    requires Graph(adj) && Proper(adj, a) && 0 <= cur < |adj| && a[cur] == -1
    requires 0 <= color < 4 && color !in ColorsAround(adj, a, cur)
    ensures Proper(adj, a[cur := color])
  {
    var b := a[cur := color];
    forall i, j | 0 <= i < |adj| && j in adj[i] && 0 <= j < |adj| && b[i] != -1 && b[j] != -1
      ensures b[i] != b[j]
    {
      if i == cur {
        assert a[j] in ColorsAround(adj, a, cur);
      } else if j == cur {
        assert i in adj[cur];
        assert a[i] in ColorsAround(adj, a, cur);
      }
    }
  }

  lemma PlaceKeepsPartial(a: seq<int>, order: seq<int>, idx: int, color: int)
    requires IsOrder(order, |a|) && 0 <= idx < |order| && Partial(a, order, idx) && 0 <= color < 4
    ensures Partial(a[order[idx] := color], order, idx + 1)
  {
    var b := a[order[idx] := color];
    forall k | 0 <= k < |order| && k != idx ensures b[order[k]] == a[order[k]] {
      assert order[k] != order[idx];
    }
  }

  /** With every cage visited, the partial colouring is a full one. */
  lemma PartialFull(a: seq<int>, order: seq<int>)
    requires IsOrder(order, |a|) && Partial(a, order, |order|)
    ensures Coloring(a, |a|)
  {
    forall i | 0 <= i < |a| ensures 0 <= a[i] < 4 {
      assert i in order;
      var k :| 0 <= k < |order| && order[k] == i;
    }
  }

  // ---------------------------------------------------------------- search

  /** `colorGraph(idx)`: colours the cages from position `idx` of the order
      on. On success every cage is coloured, properly, keeping the colours
      already given; on failure nothing changed and no proper colouring
      keeps them. */
  method ColorGraph(adj: seq<seq<int>>, order: seq<int>, a: array<int>, idx: int) returns (ok: bool)
    requires Graph(adj) && IsOrder(order, |adj|) && a.Length == |adj|
    requires 0 <= idx <= |order| && Partial(a[..], order, idx) && Proper(adj, a[..])
    modifies a
    ensures ok ==> Coloring(a[..], |adj|) && Proper(adj, a[..]) && Extends(a[..], old(a[..]))
    ensures !ok ==> a[..] == old(a[..]) && NoProperExtension(adj, a[..])
    decreases |order| - idx, 1
  {
    if idx == |order| {
      PartialFull(a[..], order);
      return true;
    }
    var cur := order[idx];
    var used := UsedColors(adj, a, cur);
    ghost var s := a[..];
    var color := 0;
    while color < 4
      invariant 0 <= color <= 4 && a[..] == s
      invariant forall col :: Coloring(col, |s|) && Extends(col, s) && col[cur] < color ==> !Proper(adj, col)
    {
      if color !in used {
        ok := TryColor(adj, order, a, idx, color);
        if ok {
          return;
        }
      } else {
        forall col | Coloring(col, |s|) && Extends(col, s) && col[cur] == color ensures !Proper(adj, col) {
          ColorTaken(adj, s, cur, color, col);
        }
      }
      color := color + 1;
    }
    return false;
  }

  /** One pass of the colour loop in `colorGraph`: colour the cage at
      position `idx`, colour the rest, and take the colour back if that fails. */
  method TryColor(adj: seq<seq<int>>, order: seq<int>, a: array<int>, idx: int, color: int) returns (done: bool)
    requires Graph(adj) && IsOrder(order, |adj|) && a.Length == |adj|
    requires 0 <= idx < |order| && Partial(a[..], order, idx) && Proper(adj, a[..])
    requires 0 <= color < 4 && color !in ColorsAround(adj, a[..], order[idx])
    modifies a
    ensures done ==> Coloring(a[..], |adj|) && Proper(adj, a[..]) && Extends(a[..], old(a[..]))
    ensures !done ==> a[..] == old(a[..])
    ensures !done ==> forall col :: Coloring(col, |adj|) && Extends(col, old(a[..])) && col[order[idx]] == color ==> !Proper(adj, col)
    decreases |order| - idx, 0
  {
    var cur := order[idx];
    ghost var before := a[..];
    PlaceKeepsProper(adj, before, cur, color);
    PlaceKeepsPartial(before, order, idx, color);
    a[cur] := color;
    assert a[..] == before[cur := color];
    done := ColorGraph(adj, order, a, idx + 1);
    if !done {
      a[cur] := -1;
      assert a[..] == before;
      forall col | Coloring(col, |adj|) && Extends(col, before) && col[cur] == color
        ensures Extends(col, before[cur := color])
      {
      }
    }
  }

  /** The fallback pass: in visiting order, each cage gets the first colour
      its coloured neighbours leave free, or the first colour when all four
      are taken. */
  method GreedyColors(adj: seq<seq<int>>, order: seq<int>, a: array<int>)
    requires IsOrder(order, |adj|) && a.Length == |adj|
    modifies a
    ensures Coloring(a[..], |adj|)
  {
    forall i | 0 <= i < a.Length {
      a[i] := -1;
    }
    var k := 0;
    while k < |order|
      invariant 0 <= k <= |order| && Partial(a[..], order, k)
    {
      var cur := order[k];
      var used := UsedColors(adj, a, cur);
      var selected := 0;
      while selected in used && selected < 4
        invariant 0 <= selected <= 4
      {
        selected := selected + 1;
      }
      PlaceKeepsPartial(a[..], order, k, selected % 4);
      a[cur] := selected % 4;
      k := k + 1;
    }
    PartialFull(a[..], order);
  }

  // ---------------------------------------------------------------- result

  /** Cages `i < j` that touch get different colour numbers. */
  predicate SeparatedBy(cages: seq<Cage>, col: seq<int>)
    requires |col| == |cages|
  {
    forall i, j :: 0 <= i < j < |cages| && AreCagesAdjacent(cages[i], cages[j]) ==> col[i] != col[j]
  }

  /** Some choice of four colours keeps every pair of touching cages apart. */
  ghost predicate FourColorable(cages: seq<Cage>)
  {
    exists col :: Coloring(col, |cages|) && SeparatedBy(cages, col)
  }

  /** The cages painted with the colour numbers in `col`. */
  function Paint(cages: seq<Cage>, col: seq<int>): (r: seq<Cage>)
    requires Coloring(col, |cages|)
    ensures |r| == |cages|
    ensures forall i :: 0 <= i < |r| ==>
      (r[i].id == cages[i].id && r[i].cells == cages[i].cells && r[i].sum == cages[i].sum && r[i].color == OptimalColors[col[i]])
  {
    seq(|cages|, i requires 0 <= i < |cages| => cages[i].(color := OptimalColors[col[i]]))
  }

  /** Proper on the adjacency list is the same as separated on the cages. */
  lemma ProperIffSeparated(adj: seq<seq<int>>, cages: seq<Cage>, col: seq<int>)
    requires AdjacencyOf(adj, cages) && Coloring(col, |cages|)
    ensures Proper(adj, col) <==> SeparatedBy(cages, col)
  {
    if Proper(adj, col) {
      forall i, j | 0 <= i < j < |cages| && AreCagesAdjacent(cages[i], cages[j]) ensures col[i] != col[j] {
        assert NeighboursOf(cages, i, adj[i]);
        assert j in adj[i];
      }
    }
    if SeparatedBy(cages, col) {
      forall i, j | 0 <= i < |adj| && j in adj[i] && 0 <= j < |adj| && col[i] != -1 && col[j] != -1
        ensures col[i] != col[j]
      {
        assert NeighboursOf(cages, i, adj[i]);
        if j < i {
          CagesAdjacentSymmetric(cages[i], cages[j]);
        }
      }
    }
  }

  /** Distinct colour numbers give distinct colour names. */
  lemma PaintSeparated(cages: seq<Cage>, col: seq<int>)
    requires Coloring(col, |cages|)
    ensures ColorsSeparated(Paint(cages, col)) <==> SeparatedBy(cages, col)
  {
    OptimalColorsFacts();
    var p := Paint(cages, col);
    forall i, j | 0 <= i < j < |cages|
      ensures AreCagesAdjacent(p[i], p[j]) == AreCagesAdjacent(cages[i], cages[j])
      ensures (p[i].color != p[j].color) == (col[i] != col[j])
    {
    }
  }

  /** `assignOptimalColors`: every cage keeps its id, cells and sum and gets
      one of the four colours; touching cages end up with different colours
      exactly when some four-colouring of the cages exists. */
  method AssignOptimalColors(cages: seq<Cage>) returns (colored: seq<Cage>)
    ensures |colored| == |cages|
    ensures forall i :: 0 <= i < |cages| ==>
      (colored[i].id == cages[i].id && colored[i].cells == cages[i].cells && colored[i].sum == cages[i].sum &&
       colored[i].color in OptimalColors)
    ensures ColorsSeparated(colored) <==> FourColorable(cages)
  {
    var adj := BuildAdjacency(cages);
    AdjacencyIsGraph(adj, cages);
    var order := OrderByDegree(adj);
    var a := new int[|cages|](i => -1);
    assert Partial(a[..], order, 0);
    var success := ColorGraph(adj, order, a, 0);
    if !success {
      forall col | Coloring(col, |cages|) ensures !SeparatedBy(cages, col) {
        assert Extends(col, a[..]);
        ProperIffSeparated(adj, cages, col);
      }
      GreedyColors(adj, order, a);
    } else {
      ProperIffSeparated(adj, cages, a[..]);
    }
    colored := Paint(cages, a[..]);
    PaintSeparated(cages, a[..]);
  }
}
