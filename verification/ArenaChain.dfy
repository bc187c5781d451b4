/** The chain of blocks on its own: cutting a block at the frontier and taking the last one back. */
module ArenaChain {
  import opened Wrappers
  import opened ArenaState
  import opened ArenaInvariant

  lemma BlockFits(c: Config, chain: map<Address, Link>, frontier: nat, p: Option<Address>, b: Address)
    requires ChainOk(c, chain, frontier, p)
    ensures b in chain ==> 0 < chain[b].size && End(chain, b) <= frontier
  {
    if b in chain {
      assert LinkOk(c, chain, frontier, b);
    }
  }

  lemma ExtendChain(c: Config, chain: map<Address, Link>, frontier: nat, p: Option<Address>, size: nat)
    requires ChainOk(c, chain, frontier, p)
    requires 0 < size && IsClassSize(c, size) && frontier + size < c.metadataStart
    ensures frontier !in chain
    ensures ChainOk(c, chain[frontier := Link(size, p)], frontier + size, Some(frontier))
  {
    var chain' := chain[frontier := Link(size, p)];
    BlockFits(c, chain, frontier, p, frontier);
    forall b | b in chain' ensures LinkOk(c, chain', frontier + size, b) {
      if b != frontier {
        assert LinkOk(c, chain, frontier, b);
        if End(chain, b) == frontier {
          assert Before(chain, b, p.value) && Before(chain, p.value, b);
          BlockFits(c, chain, frontier, p, p.value);
        }
      }
    }
    forall b1, b2 ensures Before(chain', b1, b2) {
      assert Before(chain, b1, b2);
      BlockFits(c, chain, frontier, p, b1);
      BlockFits(c, chain, frontier, p, b2);
    }
  }

  lemma ShortenChain(c: Config, chain: map<Address, Link>, frontier: nat, b: Address)
    requires ChainOk(c, chain, frontier, Some(b))
    ensures ChainOk(c, chain - {b}, b, chain[b].previous)
  {
    var chain' := chain - {b};
    assert LinkOk(c, chain, frontier, b);
    forall b' | b' in chain' ensures LinkOk(c, chain', b, b') {
      assert LinkOk(c, chain, frontier, b');
      assert Before(chain, b', b) && Before(chain, b, b');
      if chain[b'].previous.Some? {
        BlockFits(c, chain, frontier, Some(b), chain[b'].previous.value);
      }
    }
    forall b1, b2 ensures Before(chain', b1, b2) {
      assert Before(chain, b1, b2);
    }
  }

  /** The block that ends at the frontier is the one the frontier word names. */
  lemma LastBlock(c: Config, chain: map<Address, Link>, frontier: nat, p: Option<Address>, b: Address)
    requires ChainOk(c, chain, frontier, p)
    requires b in chain && End(chain, b) == frontier
    ensures p == Some(b)
  {
    assert LinkOk(c, chain, frontier, b);
    BlockFits(c, chain, frontier, p, p.value);
    assert Before(chain, b, p.value) && Before(chain, p.value, b);
  }

  /** Every unit below the frontier lies in a block: with Before, in exactly one. */
  lemma {:induction false} Covered(c: Config, chain: map<Address, Link>, frontier: nat, p: Option<Address>, u: nat)
    requires ChainOk(c, chain, frontier, p) && u < frontier
    ensures exists b :: b in chain && b <= u < End(chain, b)
    decreases frontier
  {
    assert LinkOk(c, chain, frontier, p.value);
    if u < p.value {
      ShortenChain(c, chain, frontier, p.value);
      Covered(c, chain - {p.value}, p.value, chain[p.value].previous, u);
      var b :| b in chain - {p.value} && b <= u < End(chain - {p.value}, b);
      assert b in chain && End(chain, b) == End(chain - {p.value}, b);
    } else {
      assert p.value in chain;
    }
  }
}
