/** resolver/resolve.go:243-273: a query is forwarded to the configured resolvers
    in turn, starting one place further on each time. */
module Upstream {
  import opened GoStrings
  import opened Dns

  const WRAP: nat := 0x1_0000_0000

  /** One exchange: an error, no reply at all, or a reply. */
  datatype Exchange = Error | Silence | Got(msg: Msg)

  /** What each configured resolver would answer over UDP and over TCP. */
  datatype Network = Network(udp: seq<Exchange>, tcp: seq<Exchange>)

  predicate Complete(net: Network) { |net.udp| == |net.tcp| }

  /** A truncated UDP reply is asked for again over TCP, for better or worse. */
  function Heard(net: Network, k: nat): Exchange
    requires Complete(net) && k < |net.udp|
  {
    if net.udp[k].Got? && net.udp[k].msg.truncated then net.tcp[k] else net.udp[k]
  }

  /** The counter, a uint32, after one more `Add(1)`. */
  function Next(u: nat): nat { (u + 1) % WRAP }

  function Start(u: nat, n: nat): nat
    requires n > 0
  {
    Next(u) % n
  }

  /** The exchange with the `i`-th resolver tried, counting round from `start`. */
  function Turn(net: Network, start: nat, i: nat): Exchange
    requires Complete(net) && i < |net.udp|
  {
    Heard(net, (start + i) % |net.udp|)
  }

  function FirstHeard(net: Network, start: nat, i: nat): Option<Msg>
    requires Complete(net) && i <= |net.udp|
    decreases |net.udp| - i
  {
    if i == |net.udp| then None
    else
      var e := Turn(net, start, i);
      if e.Got? then Some(e.msg) else FirstHeard(net, start, i + 1)
  }

  /** What forward returns; None is its error. */
  function Forwarded(net: Network, u: nat): Option<Msg>
    requires Complete(net)
  {
    if net.udp == [] then None else FirstHeard(net, Start(u, |net.udp|), 0)
  }

  class Forwarder {
    var nextUp: nat

    constructor ()
      ensures nextUp == 0
    { nextUp := 0; }

    method Forward(net: Network) returns (r: Option<Msg>)
      requires Complete(net)
      modifies this
      ensures r == Forwarded(net, old(nextUp))
      ensures nextUp == if net.udp == [] then old(nextUp) else Next(old(nextUp))
    {
      var n := |net.udp|;
      if n == 0 { return None; }
      nextUp := (nextUp + 1) % WRAP;
      var start := nextUp % n;
      for i := 0 to n
        invariant nextUp == Next(old(nextUp))
        invariant FirstHeard(net, start, 0) == FirstHeard(net, start, i)
      {
        var k := (start + i) % n;
        var reply := net.udp[k];
        if reply.Got? && reply.msg.truncated { reply := net.tcp[k]; }
        if reply.Error? || reply.Silence? { continue; }
        return Some(reply.msg);
      }
      return None;
    }
  }

  lemma {:induction false} FirstHeardAt(net: Network, start: nat, i: nat) returns (j: nat)
    requires Complete(net) && i <= |net.udp|
    ensures i <= j <= |net.udp| && forall k :: i <= k < j ==> !Turn(net, start, k).Got?
    ensures FirstHeard(net, start, i) == None <==> j == |net.udp|
    ensures j < |net.udp| ==> Turn(net, start, j) == Got(FirstHeard(net, start, i).value)
    decreases |net.udp| - i
  {
    j := i;
    if i < |net.udp| && !Turn(net, start, i).Got? { j := FirstHeardAt(net, start, i + 1); }
  }

  lemma Multiple(n: int, d: int)
    requires n > 0
    ensures d >= 1 ==> n * d >= n
    ensures d <= -1 ==> n * d <= -n
  {
    if d >= 1 { assert n * (d - 1) >= 0; }
    if d <= -1 { assert n * (-d - 1) >= 0; }
  }

  lemma Remainder(a: int, n: int, q: int, r: int)
    requires a == n * q + r && 0 <= r < n
    ensures a % n == r
  {
    var d := q - a / n;
    assert n * d == n * q - n * (a / n);
    Multiple(n, d);
  }

  /** Going round from any starting place meets every resolver. */
  lemma RoundMeets(start: nat, n: nat, j: nat) returns (back: nat)
    requires start < n && j < n
    ensures back < n && (start + back) % n == j
  {
    back := if start <= j then j - start else j + n - start;
    Remainder(start + back, n, if start <= j then 0 else 1, j);
  }

  /** A resolver answers with its UDP reply, if that is whole, and with its TCP
      reply, if it is not. */
  predicate Replies(net: Network, j: nat, m: Msg)
    requires Complete(net) && j < |net.udp|
  {
    || (net.udp[j] == Got(m) && !m.truncated)
    || (net.udp[j].Got? && net.udp[j].msg.truncated && net.tcp[j] == Got(m))
  }

  /** Or it does not: it fails over UDP, or over TCP after a truncated reply. */
  predicate Fails(net: Network, j: nat)
    requires Complete(net) && j < |net.udp|
  {
    !net.udp[j].Got? || (net.udp[j].msg.truncated && !net.tcp[j].Got?)
  }

  /** The `i`-th resolver tried by a query that finds the counter at `u`. */
  function Around(net: Network, u: nat, i: nat): (j: nat)
    requires net.udp != []
    ensures j < |net.udp|
  {
    ((u + 1) % 4_294_967_296 % |net.udp| + i) % |net.udp|
  }

  lemma HeardIs(net: Network, j: nat)
    requires Complete(net) && j < |net.udp|
    ensures Heard(net, j).Got? <==> !Fails(net, j)
    ensures Heard(net, j).Got? ==> Replies(net, j, Heard(net, j).msg)
  {}

  lemma TurnIs(net: Network, u: nat, i: nat)
    requires Complete(net) && i < |net.udp|
    ensures Turn(net, Start(u, |net.udp|), i) == Heard(net, Around(net, u, i))
  {}

  /** A query fails exactly when no resolver at all would have answered it, and
      otherwise the answer is that of the first one to answer, counted round from
      the starting place. */
  lemma ForwardExact(net: Network, u: nat) returns (k: nat)
    requires Complete(net)
    ensures Forwarded(net, u) == None <==> forall j :: 0 <= j < |net.udp| ==> Fails(net, j)
    ensures Forwarded(net, u).Some? ==>
      && k < |net.udp| && Replies(net, Around(net, u, k), Forwarded(net, u).value)
      && forall j :: 0 <= j < k ==> Fails(net, Around(net, u, j))
  {
    k := 0;
    var n := |net.udp|;
    if n > 0 {
      var start := Start(u, n);
      k := FirstHeardAt(net, start, 0);
      forall j | 0 <= j < n ensures Heard(net, Around(net, u, j)) == Turn(net, start, j) { TurnIs(net, u, j); }
      forall j | 0 <= j < n ensures Heard(net, j).Got? <==> !Fails(net, j) { HeardIs(net, j); }
      if Forwarded(net, u) == None {
        forall j | 0 <= j < n ensures Fails(net, j) {
          var back := RoundMeets(start, n, j);
          assert !Turn(net, start, back).Got?;
        }
      } else {
        HeardIs(net, Around(net, u, k));
      }
    }
  }

  lemma OneMore(w: nat, n: nat)
    requires n > 0
    ensures (w + 1) % n == (w % n + 1) % n
  {
    var q, r := w / n, w % n;
    assert w + 1 == n * q + (r + 1);
    if r + 1 < n {
      Remainder(w + 1, n, q, r + 1);
      Remainder(r + 1, n, 0, r + 1);
    } else {
      assert n * (q + 1) == n * q + n;
      Remainder(w + 1, n, q + 1, 0);
      Remainder(n, n, 1, 0);
    }
  }

  /** The start moves on by one place from query to query: always, except where
      the 32-bit counter wraps and the number of resolvers does not divide it. */
  lemma RotatesIff(u: nat, n: nat)
    requires n > 0
    ensures Start(Next(u), n) == (Start(u, n) + 1) % n <==> Next(u) + 1 < WRAP || WRAP % n == 0
  {
    OneMore(Next(u), n);
    Remainder(0, n, 0, 0);
  }
}
