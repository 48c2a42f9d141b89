/**
 * A reference definition of the query language text the client produces:
 * a sequence of equality clauses `field=value`, joined by " and ".
 * The client's own string building (module Jira) is proved equal to it.
 */
module Jql {

  /** One equality clause of a query. */
  datatype Clause = Clause(field: string, value: string)

  /** The text of one clause. */
  function Render(c: Clause): string
  {
    c.field + "=" + c.value
  }

  /** The parts joined with `sep` between every two neighbours. */
  function Join(sep: string, parts: seq<string>): (r: string)
    ensures |parts| > 0 ==> parts[0] <= r
    ensures |parts| == 0 ==> r == []
  {
    if |parts| == 0 then []
    else if |parts| == 1 then parts[0]
    else parts[0] + sep + Join(sep, parts[1..])
  }

  /** Appending one more part adds exactly one separator and that part at the end. */
  lemma {:induction false} JoinSnoc(sep: string, parts: seq<string>, last: string)
    requires |parts| > 0
    ensures Join(sep, parts + [last]) == Join(sep, parts) + sep + last
  {
    var ps := parts + [last];
    if |parts| == 1 {
      assert ps[1..] == [last];
    } else {
      assert ps[1..] == parts[1..] + [last];
      JoinSnoc(sep, parts[1..], last);
    }
  }

  /** The texts of the clauses, in order. */
  function RenderAll(q: seq<Clause>): (r: seq<string>)
    ensures |r| == |q|
    ensures forall i :: 0 <= i < |q| ==> r[i] == Render(q[i])
  {
    seq(|q|, i requires 0 <= i < |q| => Render(q[i]))
  }

  /** The text of a whole query: its clauses joined by " and ". */
  function Text(q: seq<Clause>): string
  {
    Join(" and ", RenderAll(q))
  }

  /** Adding a clause at the end of a non-empty query appends " and field=value". */
  lemma TextSnoc(q: seq<Clause>, c: Clause)
    requires |q| > 0
    ensures Text(q + [c]) == Text(q) + " and " + Render(c)
  {
    assert RenderAll(q + [c]) == RenderAll(q) + [Render(c)];
    JoinSnoc(" and ", RenderAll(q), Render(c));
  }

  /** A one-clause query is just that clause. */
  lemma TextSingle(c: Clause)
    ensures Text([c]) == Render(c)
  {
    assert RenderAll([c]) == [Render(c)];
  }
}
