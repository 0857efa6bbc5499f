/** A caller's view of the network: what it asks, one call after the other, and what it gets. */
module Scripts {

  class Link<W, E> {
    const replies: seq<E>
    var asked: seq<W>

    constructor (replies: seq<E>)
      ensures this.replies == replies && asked == []
    {
      this.replies, asked := replies, [];
    }

    method Call(w: W) returns (e: E)
      requires |asked| < |replies|
      modifies this
      ensures asked == old(asked) + [w] && e == replies[|old(asked)|]
    {
      e := replies[|asked|];
      asked := asked + [w];
    }
  }
}
