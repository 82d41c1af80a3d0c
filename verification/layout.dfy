/**
 * The structure of a token stream that the properties of rendered signatures speak about:
 * the texts of its labels, in order, and the occurrences of a given token (a line break,
 * a comma).
 */
module Layouts {
  import opened Printing

  /** The texts of the Label tokens of ts, in order. */
  function Labels(ts: seq<Token>): seq<string>
  {
    if ts == [] then []
    else (if ts[0].Label? then [ts[0].text] else []) + Labels(ts[1..])
  }

  lemma {:induction false} LabelsAppend(a: seq<Token>, b: seq<Token>)
    ensures Labels(a + b) == Labels(a) + Labels(b)
  {
    if a != [] {
      assert (a + b)[1..] == a[1..] + b;
      LabelsAppend(a[1..], b);
    } else {
      assert a + b == b;
    }
  }

  lemma {:induction false} NoLabels(ts: seq<Token>)
    requires forall k | 0 <= k < |ts| :: !ts[k].Label?
    ensures Labels(ts) == []
  {
    if ts != [] {
      NoLabels(ts[1..]);
    }
  }

  /** Prepending one token puts its label, if it is one, in front. */
  lemma ConsLabels(t: Token, ts: seq<Token>)
    ensures Labels([t] + ts) == (if t.Label? then [t.text] else []) + Labels(ts)
  {
    assert ([t] + ts)[1..] == ts;
  }

  /** The occurrences of x in ts. */
  function Only(ts: seq<Token>, x: Token): seq<Token>
  {
    if ts == [] then []
    else (if ts[0] == x then [x] else []) + Only(ts[1..], x)
  }

  lemma {:induction false} OnlyAppend(a: seq<Token>, b: seq<Token>, x: Token)
    ensures Only(a + b, x) == Only(a, x) + Only(b, x)
  {
    if a != [] {
      assert (a + b)[1..] == a[1..] + b;
      OnlyAppend(a[1..], b, x);
    } else {
      assert a + b == b;
    }
  }

  lemma {:induction false} NoneOf(ts: seq<Token>, x: Token)
    requires x !in ts
    ensures Only(ts, x) == []
  {
    if ts != [] {
      NoneOf(ts[1..], x);
    }
  }

  /** Prepending one token puts it in front of the occurrences of x when it is x. */
  lemma ConsOnly(t: Token, ts: seq<Token>, x: Token)
    ensures Only([t] + ts, x) == (if t == x then [x] else []) + Only(ts, x)
  {
    assert ([t] + ts)[1..] == ts;
  }
}
