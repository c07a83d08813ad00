/**
  Stock adjustments as the store performs them:
  `findOneAndUpdate({_id: pid, 'variants._id': vid}, {$inc: {'variants.$.amount': delta}})`
  adds `delta` to the first variant with id `vid` of product `pid`, and does
  nothing when there is no such product or variant. A sequence of such
  adjustments is a list of moves; its effect on each variant is the sum of the
  deltas that land on it.
 */
module Inventory {
  import opened Common
  import opened ProductModel

  datatype Move = Move(productId: Id, variantId: Id, delta: int)

  type Products = map<Id, Product>

  /** One match-or-skip `$inc`. */
  function AddToVariant(ps: Products, m: Move): (qs: Products)
    ensures qs.Keys == ps.Keys
    ensures forall pid :: pid in ps ==> SameExceptAmounts(ps[pid], qs[pid])
  {
    if m.productId !in ps then ps
    else
      var p := ps[m.productId];
      match FindVariant(p.variants, m.variantId)
      case None => ps
      case Some(k) =>
        ps[m.productId := p.(variants := p.variants[k := p.variants[k].(amount := p.variants[k].amount + m.delta)])]
  }

  /** Move `m` lands on variant `k` of product `pid` in `ps`. */
  predicate Hits(ps: Products, m: Move, pid: Id, k: nat) {
    m.productId == pid && pid in ps && FindVariant(ps[pid].variants, m.variantId) == Some(k)
  }

  /** The adjustments applied one after another, in order. */
  function ApplyMoves(ps: Products, ms: seq<Move>): Products
    decreases |ms|
  {
    if ms == [] then ps else ApplyMoves(AddToVariant(ps, ms[0]), ms[1..])
  }

  /** The total delta the moves add to variant `k` of product `pid`. */
  function Net(ps: Products, ms: seq<Move>, pid: Id, k: nat): int
    decreases |ms|
  {
    if ms == [] then 0
    else (if Hits(ps, ms[0], pid, k) then ms[0].delta else 0) + Net(ps, ms[1..], pid, k)
  }

  ghost predicate SameShape(ps: Products, qs: Products) {
    && ps.Keys == qs.Keys
    && forall pid :: pid in ps ==> SameExceptAmounts(ps[pid], qs[pid])
  }

  /** Which variant a move lands on is decided by ids alone, so it is the same in every store of the same shape. */
  lemma {:induction false} NetIgnoresAmounts(ps: Products, qs: Products, ms: seq<Move>, pid: Id, k: nat)
    requires SameShape(ps, qs)
    ensures Net(ps, ms, pid, k) == Net(qs, ms, pid, k)
    decreases |ms|
  {
    if ms != [] {
      if pid in ps {
        FindVariantIgnoresAmounts(ps[pid], qs[pid], ms[0].variantId);
      }
      NetIgnoresAmounts(ps, qs, ms[1..], pid, k);
    }
  }

  /** One adjustment changes exactly the variant it lands on, by its delta. */
  lemma AddToVariantAt(ps: Products, m: Move, pid: Id, k: nat)
    requires pid in ps && k < |ps[pid].variants|
    ensures var qs := AddToVariant(ps, m);
      qs[pid].variants[k].amount == ps[pid].variants[k].amount + (if Hits(ps, m, pid, k) then m.delta else 0)
  {
  }

  /**
    The effect of a list of adjustments: the same products with the same
    variants, every stock counter moved by the net delta aimed at it.
   */
  lemma {:induction false} ApplyMovesAt(ps: Products, ms: seq<Move>)
    ensures var qs := ApplyMoves(ps, ms);
      && SameShape(ps, qs)
      && forall pid, k :: pid in ps && 0 <= k < |ps[pid].variants| ==>
           qs[pid].variants[k].amount == ps[pid].variants[k].amount + Net(ps, ms, pid, k)
    decreases |ms|
  {
    if ms != [] {
      var rs := AddToVariant(ps, ms[0]);
      var qs := ApplyMoves(ps, ms);
      ApplyMovesAt(rs, ms[1..]);
      forall pid, k | pid in ps && 0 <= k < |ps[pid].variants|
        ensures qs[pid].variants[k].amount == ps[pid].variants[k].amount + Net(ps, ms, pid, k)
      {
        AddToVariantAt(ps, ms[0], pid, k);
        NetIgnoresAmounts(ps, rs, ms[1..], pid, k);
      }
    }
  }

  lemma {:induction false} ApplyMovesAppend(ps: Products, a: seq<Move>, b: seq<Move>)
    ensures ApplyMoves(ps, a + b) == ApplyMoves(ApplyMoves(ps, a), b)
    decreases |a|
  {
    if a == [] {
      assert a + b == b;
    } else {
      assert (a + b)[1..] == a[1..] + b;
      ApplyMovesAppend(AddToVariant(ps, a[0]), a[1..], b);
    }
  }

  lemma {:induction false} NetAppend(ps: Products, a: seq<Move>, b: seq<Move>, pid: Id, k: nat)
    ensures Net(ps, a + b, pid, k) == Net(ps, a, pid, k) + Net(ps, b, pid, k)
    decreases |a|
  {
    if a == [] {
      assert a + b == b;
    } else {
      assert (a + b)[1..] == a[1..] + b;
      NetAppend(ps, a[1..], b, pid, k);
    }
  }

  /** Adjustments that cancel out on every variant leave the store exactly as it was. */
  lemma NetZeroRestores(ps: Products, ms: seq<Move>)
    requires forall pid, k :: pid in ps && 0 <= k < |ps[pid].variants| ==> Net(ps, ms, pid, k) == 0
    ensures ApplyMoves(ps, ms) == ps
  {
    var qs := ApplyMoves(ps, ms);
    ApplyMovesAt(ps, ms);
    forall pid | pid in ps
      ensures qs[pid] == ps[pid]
    {
      assert qs[pid].variants == ps[pid].variants;
    }
  }
}
