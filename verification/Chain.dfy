// middleware/chain.go: layers wrapped around an operation. A call turns a world (the
// state of every pattern the layers use) into a world and a reply.
module Chains {

  type Handler<!W, T> = W -> (W, T)

  type Middleware<!W, !T> = Handler<W, T> -> Handler<W, T>

  /** The specification: the first layer wraps what the rest make of fn. */
  function Wrap<W, T>(layers: seq<Middleware<W, T>>, fn: Handler<W, T>): Handler<W, T> {
    if layers == [] then fn else layers[0](Wrap(layers[1..], fn))
  }

  /** Building a chain in two stages nests the later stage inside the earlier one. */
  lemma {:induction false} WrapNests<W, T>(outer: seq<Middleware<W, T>>, inner: seq<Middleware<W, T>>,
                                           fn: Handler<W, T>)
    ensures Wrap(outer + inner, fn) == Wrap(outer, Wrap(inner, fn))
  {
    if outer == [] {
      assert outer + inner == inner;
    } else {
      assert (outer + inner)[1..] == outer[1..] + inner;
      WrapNests(outer[1..], inner, fn);
    }
  }

  class Chain<!W, !T> {
    var middlewares: seq<Middleware<W, T>>

    constructor ()
      ensures middlewares == []
    {
      middlewares := [];
    }

    method With(m: Middleware<W, T>)
      modifies this
      ensures middlewares == old(middlewares) + [m]
    {
      middlewares := middlewares + [m];
    }

    method Execute(w: W, fn: Handler<W, T>) returns (r: (W, T))
      ensures r == Wrap(middlewares, fn)(w)
    {
      var next := fn;
      for i := |middlewares| downto 0
        invariant next == Wrap(middlewares[i..], fn)
      {
        assert middlewares[i..][1..] == middlewares[i + 1..];
        next := middlewares[i](next);
      }
      r := next(w);
    }
  }

  // ----- The order of entry and exit -----

  datatype Mark<L> = Entered(layer: L) | Ran | Left(layer: L)

  /** A layer that notes when it is entered and left, and stands in the way when it refuses. */
  function Watched<L>(layer: L, refuses: bool): Middleware<seq<Mark<L>>, bool> {
    (next: Handler<seq<Mark<L>>, bool>) => (log: seq<Mark<L>>) =>
      if refuses then (log + [Entered(layer), Left(layer)], false)
      else
        var (inner, ok) := next(log + [Entered(layer)]);
        (inner + [Left(layer)], ok)
  }

  function WatchedAll<L>(layers: seq<L>, refusing: L -> bool): (ms: seq<Middleware<seq<Mark<L>>, bool>>)
    ensures |ms| == |layers|
    ensures forall i :: 0 <= i < |ms| ==> ms[i] == Watched(layers[i], refusing(layers[i]))
  {
    if layers == [] then []
    else [Watched(layers[0], refusing(layers[0]))] + WatchedAll(layers[1..], refusing)
  }

  function Operation<L>(): Handler<seq<Mark<L>>, bool> {
    (log: seq<Mark<L>>) => (log + [Ran], true)
  }

  function Entries<L>(layers: seq<L>): (r: seq<Mark<L>>)
    ensures |r| == |layers| && forall i :: 0 <= i < |r| ==> r[i] == Entered(layers[i])
  {
    seq(|layers|, i requires 0 <= i < |layers| => Entered(layers[i]))
  }

  /** The layers, last entered first. */
  function Exits<L>(layers: seq<L>): (r: seq<Mark<L>>)
    ensures |r| == |layers| && forall i :: 0 <= i < |r| ==> r[i] == Left(layers[|layers| - 1 - i])
  {
    seq(|layers|, i requires 0 <= i < |layers| => Left(layers[|layers| - 1 - i]))
  }

  /** How many layers a call gets into: all of them, or up to the first that refuses. */
  function Reached<L>(layers: seq<L>, refusing: L -> bool): (n: nat)
    ensures n <= |layers|
    ensures forall i :: 0 <= i < n - 1 ==> !refusing(layers[i])
    ensures n < |layers| ==> n > 0 && refusing(layers[n - 1])
  {
    if layers == [] then 0
    else if refusing(layers[0]) then 1
    else 1 + Reached(layers[1..], refusing)
  }

  predicate Refused<L>(layers: seq<L>, refusing: L -> bool) {
    exists i :: 0 <= i < |layers| && refusing(layers[i])
  }

  /** What a call notes on its way. */
  function Path<L>(layers: seq<L>, refusing: L -> bool): seq<Mark<L>> {
    if layers == [] then [Ran]
    else
      [Entered(layers[0])] + (if refusing(layers[0]) then [] else Path(layers[1..], refusing)) + [Left(layers[0])]
  }

  /** One watched layer around a handler. */
  lemma OuterLayer<L>(layers: seq<L>, refusing: L -> bool, log: seq<Mark<L>>)
    requires layers != []
    ensures var inner := Wrap(WatchedAll(layers[1..], refusing), Operation());
            Wrap(WatchedAll(layers, refusing), Operation())(log)
            == Watched(layers[0], refusing(layers[0]))(inner)(log)
  {
    assert WatchedAll(layers, refusing)[1..] == WatchedAll(layers[1..], refusing);
  }

  lemma Regroup<X>(log: seq<X>, first: X, middle: seq<X>, last: X)
    ensures log + [first] + middle + [last] == log + ([first] + middle + [last])
  {
  }

  lemma {:induction false} ChainFollowsPath<L>(layers: seq<L>, refusing: L -> bool, log: seq<Mark<L>>)
    ensures Wrap(WatchedAll(layers, refusing), Operation())(log)
            == (log + Path(layers, refusing), !Refused(layers, refusing))
  {
    if layers != [] {
      OuterLayer(layers, refusing, log);
      if refusing(layers[0]) {
        assert Path(layers, refusing) == [Entered(layers[0]), Left(layers[0])];
      } else {
        var entered := log + [Entered(layers[0])];
        ChainFollowsPath(layers[1..], refusing, entered);
        RefusedRest(layers, refusing);
        Regroup(log, Entered(layers[0]), Path(layers[1..], refusing), Left(layers[0]));
      }
    }
  }

  lemma OneLayerMore<L>(layer: L, inner: seq<L>, middle: seq<Mark<L>>)
    ensures [Entered(layer)] + (Entries(inner) + middle + Exits(inner)) + [Left(layer)]
            == Entries([layer] + inner) + middle + Exits([layer] + inner)
  {
    var all := [layer] + inner;
    assert Entries(all) == [Entered(layer)] + Entries(inner);
    assert Exits(all) == Exits(inner) + [Left(layer)];
  }

  function Middle<L>(layers: seq<L>, refusing: L -> bool): seq<Mark<L>> {
    if Refused(layers, refusing) then [] else [Ran]
  }

  lemma {:induction false} PathIsAnOnion<L>(layers: seq<L>, refusing: L -> bool)
    ensures var n := Reached(layers, refusing);
            Path(layers, refusing) == Entries(layers[..n]) + Middle(layers, refusing) + Exits(layers[..n])
  {
    if layers != [] {
      var rest := layers[1..];
      var n := Reached(layers, refusing);
      if refusing(layers[0]) {
        assert layers[..n] == [layers[0]] + [];
        OneLayerMore(layers[0], [], []);
      } else {
        PathIsAnOnion(rest, refusing);
        RefusedRest(layers, refusing);
        assert layers[..n] == [layers[0]] + rest[..n - 1];
        OneLayerMore(layers[0], rest[..n - 1], Middle(rest, refusing));
      }
    }
  }

  /** The first layer added is the outermost: a call goes in through the layers in the order
      they were added, runs the operation exactly when none of them refuses, and comes out
      through the layers it got into in the opposite order. */
  lemma FirstAddedIsOutermost<L>(layers: seq<L>, refusing: L -> bool)
    ensures var n := Reached(layers, refusing);
            Wrap(WatchedAll(layers, refusing), Operation())([])
            == (Entries(layers[..n]) + Middle(layers, refusing) + Exits(layers[..n]),
                !Refused(layers, refusing))
  {
    ChainFollowsPath(layers, refusing, []);
    PathIsAnOnion(layers, refusing);
    assert [] + Path(layers, refusing) == Path(layers, refusing);
  }

  lemma RefusedRest<L>(layers: seq<L>, refusing: L -> bool)
    requires layers != [] && !refusing(layers[0])
    ensures Refused(layers, refusing) == Refused(layers[1..], refusing)
  {
    if Refused(layers, refusing) {
      var i :| 0 <= i < |layers| && refusing(layers[i]);
      assert refusing(layers[1..][i - 1]);
    }
  }
}
