/**
 * The two small transforms beside the store list: the model/color index of
 * `GET /api/models` (every model in normal condition with the sorted set of its
 * colors) and the agent list of `GET /api/agents`.
 */
module Catalog {
  import opened Wrappers
  import opened Text
  import opened StringOrder

  // ---------------------------------------------------------------------------
  // Model/color index

  /**
   * The (model, color) pair an inventory data row contributes: the row needs at
   * least 8 cells, a non-blank trimmed model and color, and the trimmed status "정상".
   */
  function ColorPair(row: Row): Option<(string, string)>
  {
    if |row| < 8 then None
    else
      var model := Trim(Cell(row, 5));
      var color := Trim(Cell(row, 6));
      var status := Trim(Cell(row, 7));
      if model == "" || color == "" then None
      else if status != "정상" then None
      else Some((model, color))
  }

  /** ColorPair as a function value, so the index lemmas below hold for any row filter. */
  function PairFilter(): Row -> Option<(string, string)>
  {
    row => ColorPair(row)
  }

  /** The colors of every model seen so far, each list sorted and free of repeats. */
  ghost predicate SortedLists(idx: map<string, seq<string>>)
  {
    forall m :: m in idx ==> StrictlySorted(idx[m])
  }

  /**
   * `modelColorMap` after the `forEach`, with each Set already turned into its
   * sorted array: a color is added to its model's sorted list once.
   */
  function ModelIndex(rows: seq<Row>, pick: Row -> Option<(string, string)>): (r: map<string, seq<string>>)
    ensures SortedLists(r)
  {
    if rows == [] then map[]
    else
      var idx := ModelIndex(rows[..|rows| - 1], pick);
      match pick(rows[|rows| - 1])
      case None => idx
      case Some(mc) =>
        var colors := if mc.0 in idx then idx[mc.0] else [];
        idx[mc.0 := Insert(colors, mc.1)]
  }

  /**
   * The index holds exactly the picked pairs: a model is listed with a color
   * precisely when some row contributes that (model, color).
   */
  lemma {:induction false} ModelIndexExact(rows: seq<Row>, pick: Row -> Option<(string, string)>, m: string, c: string)
    ensures (m in ModelIndex(rows, pick) && c in ModelIndex(rows, pick)[m])
        <==> exists i :: 0 <= i < |rows| && pick(rows[i]) == Some((m, c))
  {
    if rows != [] {
      var init := rows[..|rows| - 1];
      ModelIndexExact(init, pick, m, c);
      if exists i :: 0 <= i < |rows| && pick(rows[i]) == Some((m, c)) {
        var i :| 0 <= i < |rows| && pick(rows[i]) == Some((m, c));
        if i < |init| {
          assert init[i] == rows[i];
        }
      }
      if exists i :: 0 <= i < |init| && pick(init[i]) == Some((m, c)) {
        var i :| 0 <= i < |init| && pick(init[i]) == Some((m, c));
        assert rows[i] == init[i];
      }
    }
  }

  /** Every listed model has at least one color: a model appears only together with a color. */
  lemma {:induction false} ModelIndexNonEmpty(rows: seq<Row>, pick: Row -> Option<(string, string)>)
    ensures forall m :: m in ModelIndex(rows, pick) ==> ModelIndex(rows, pick)[m] != []
  {
    if rows != [] {
      ModelIndexNonEmpty(rows[..|rows| - 1], pick);
    }
  }

  /** Two sorted repeat-free lists with the same elements are the same list: the index value is determined by the color set. */
  lemma {:induction false} SortedUnique(s: seq<string>, t: seq<string>)
    requires StrictlySorted(s) && StrictlySorted(t)
    requires forall y :: y in s <==> y in t
    ensures s == t
  {
    assert s != [] ==> s[0] in t;
    assert t != [] ==> t[0] in s;
    if s != [] && t != [] {
      if s[0] != t[0] {
        // each head would have to sort strictly before the other
        assert Below(t[0], s[0]) && Below(s[0], t[0]);
        BelowTransitive(s[0], t[0], s[0]);
        BelowIrreflexive(s[0]);
      } else {
        forall y ensures y in s[1..] <==> y in t[1..] {
          TailMembers(s, t, y);
          TailMembers(t, s, y);
        }
        SortedUnique(s[1..], t[1..]);
        assert s == [s[0]] + s[1..];
        assert t == [t[0]] + t[1..];
      }
    }
  }

  /** In sorted lists with the same head and elements, the tails agree on y. */
  lemma TailMembers(s: seq<string>, t: seq<string>, y: string)
    requires StrictlySorted(s) && StrictlySorted(t) && s != [] && t != [] && s[0] == t[0]
    requires forall x :: x in s <==> x in t
    ensures y in s[1..] ==> y in t[1..]
  {
    if y in s[1..] {
      var k :| 0 <= k < |s[1..]| && s[1..][k] == y;
      assert s[k + 1] == y;
      assert Below(s[0], y);
      BelowIrreflexive(y);
      assert y in t;
      var j :| 0 <= j < |t| && t[j] == y;
      assert j != 0;
      assert t[1..][j - 1] == y;
    }
  }

  // ---------------------------------------------------------------------------
  // Agent list

  /** One agent: columns A (target), B (qualification) and C (contact id), missing cells read as "". */
  datatype Agent = Agent(target: string, qualification: string, contactId: string)

  function AgentOf(row: Row): Agent
  {
    Agent(Cell(row, 0), Cell(row, 1), Cell(row, 2))
  }

  /** The map/filter chain over the agent data rows: rows without a contact id are dropped. */
  function AgentList(rows: seq<Row>): (r: seq<Agent>)
    ensures |r| <= |rows|
  {
    if rows == [] then []
    else
      var rest := AgentList(rows[1..]);
      if Cell(rows[0], 2) != "" then [AgentOf(rows[0])] + rest else rest
  }

  /** The agent list keeps sheet order: it distributes over concatenation. */
  lemma {:induction false} AgentListAppend(a: seq<Row>, b: seq<Row>)
    ensures AgentList(a + b) == AgentList(a) + AgentList(b)
  {
    if a != [] {
      assert (a + b)[0] == a[0];
      assert (a + b)[1..] == a[1..] + b;
      AgentListAppend(a[1..], b);
    } else {
      assert a + b == b;
    }
  }

  /** A single row yields its agent exactly when column C is non-empty. */
  lemma AgentListSingle(row: Row)
    ensures AgentList([row]) == if Cell(row, 2) != "" then [AgentOf(row)] else []
  {
    assert [row][1..] == [];
  }

  /** Every listed agent has a contact id, and comes from a row whose column C is that id. */
  lemma {:induction false} AgentListMembers(rows: seq<Row>, ag: Agent)
    ensures ag in AgentList(rows) <==> exists i :: 0 <= i < |rows| && Cell(rows[i], 2) != "" && AgentOf(rows[i]) == ag
    ensures ag in AgentList(rows) ==> ag.contactId != ""
  {
    if rows != [] {
      AgentListMembers(rows[1..], ag);
      if exists i :: 0 <= i < |rows| && Cell(rows[i], 2) != "" && AgentOf(rows[i]) == ag {
        var i :| 0 <= i < |rows| && Cell(rows[i], 2) != "" && AgentOf(rows[i]) == ag;
        if i > 0 {
          assert rows[1..][i - 1] == rows[i];
        }
      }
      if ag in AgentList(rows[1..]) {
        var i :| 0 <= i < |rows[1..]| && Cell(rows[1..][i], 2) != "" && AgentOf(rows[1..][i]) == ag;
        assert rows[i + 1] == rows[1..][i];
      }
    }
  }
}
