/** What the scanner sees of the chain: block headers, and the answers a node may give. */
module Node {
  import opened Prelude

  type Hash = nat

  datatype Header = Header(hash: Hash, parentHash: Hash, number: int, timestamp: nat)

  // A header request ends in an RPC error, in an error code (which the client turns into a nil header
  // with a nil error), or in a header.
  datatype Answer = RpcFailed | Unreported | Got(header: Header)

  // The answers during one call of the scanner. No call asks twice for the same height, so a function of
  // the height covers a node that changes its mind between any two requests. Height 0 asks for the head.
  datatype View = View(latest: Answer, at: int -> Answer)

  ghost predicate RightNumbers(view: View) {
    && (view.latest.Got? ==> view.latest.header.number >= 0)
    && (view.at(0).Got? ==> view.at(0).header.number >= 0)
    && forall n :: n > 0 && view.at(n).Got? ==> view.at(n).header.number == n
  }

  // Consecutive headers: numbers go up by one and each names its predecessor's hash.
  predicate Linked(headers: seq<Header>) {
    forall i | 0 < i < |headers| ::
      && headers[i].number == headers[i - 1].number + 1
      && headers[i].parentHash == headers[i - 1].hash
  }

  ghost predicate Extends(chain: int -> Header, n: int) {
    chain(n + 1).parentHash == chain(n).hash
  }

  // A chain gives a header to every height, each linked to the one below.
  ghost predicate IsChain(chain: int -> Header) {
    && (forall n | n > 0 :: chain(n).number == n)
    && (forall n | n > 0 :: Extends(chain, n))
  }

  // The answers of a node that holds one chain up to a head.
  ghost predicate Serves(view: View, chain: int -> Header, head: int) {
    && head > 0
    && view.latest == Got(chain(head))
    && forall n :: 0 < n <= head ==> view.at(n) == Got(chain(n))
  }

  lemma LinkedNumbers(headers: seq<Header>, i: nat)
    requires Linked(headers) && i < |headers|
    ensures headers[i].number == headers[0].number + i
  {
    if i > 0 {
      LinkedNumbers(headers, i - 1);
    }
  }

  lemma LinkedConcat(left: seq<Header>, right: seq<Header>)
    requires Linked(left) && Linked(right)
    requires left != [] && right != [] ==>
      right[0].number == Last(left).number + 1 && right[0].parentHash == Last(left).hash
    ensures Linked(left + right)
  {
  }
}
