/**
 * The wallet balance adjuster: a signed increment of one wallet's stored
 * balance, run on the caller's client when it passes one (the client of an
 * enclosing atomic block) and on the default store otherwise.
 */
module WalletService {
  import opened Wrappers
  import opened Schema
  import opened Database

  /** The increment as a change of store value; a missing wallet is the store's not-found failure. */
  function IncrementBalance(s: State, id: Id, amount: int): (r: Result<State, Error>)
  {
    if id !in s.wallets then Failure(RecordNotFound("wallet"))
    else Success(s.(wallets := s.wallets[id := s.wallets[id].(balance := s.wallets[id].balance + amount)]))
  }

  /** Exactly the wallet `id` changes, and of it only the balance, by `amount` (of either sign). */
  lemma IncrementChangesOnlyThatBalance(s: State, id: Id, amount: int)
    ensures IncrementBalance(s, id, amount).Failure? <==> id !in s.wallets
    ensures IncrementBalance(s, id, amount).Failure? ==>
      IncrementBalance(s, id, amount).error == RecordNotFound("wallet")
    ensures IncrementBalance(s, id, amount).Success? ==>
      var s' := IncrementBalance(s, id, amount).value;
      && s'.wallets.Keys == s.wallets.Keys
      && s'.wallets[id].balance == s.wallets[id].balance + amount
      && s'.wallets[id] == s.wallets[id].(balance := s'.wallets[id].balance)
      && (forall w :: w in s.wallets && w != id ==> s'.wallets[w] == s.wallets[w])
      && s' == s.(wallets := s'.wallets)
  {
  }

  /** Two increments of one wallet equal a single increment by their sum. */
  lemma IncrementAdditive(s: State, id: Id, a: int, b: int)
    requires IncrementBalance(s, id, a).Success?
    ensures IncrementBalance(IncrementBalance(s, id, a).value, id, b) == IncrementBalance(s, id, a + b)
  {
    var w := s.wallets[id];
    var once := IncrementBalance(s, id, a).value;
    assert once.wallets[id] == w.(balance := w.balance + a);
    assert once.wallets[id].(balance := once.wallets[id].balance + b) == w.(balance := w.balance + (a + b));
    assert once.wallets[id := once.wallets[id].(balance := once.wallets[id].balance + b)]
        == s.wallets[id := w.(balance := w.balance + (a + b))];
  }

  /** Increments of different wallets commute. */
  lemma IncrementsCommute(s: State, v: Id, a: int, w: Id, b: int)
    requires IncrementBalance(s, v, a).Success? && IncrementBalance(s, w, b).Success?
    ensures IncrementBalance(IncrementBalance(s, v, a).value, w, b)
         == IncrementBalance(IncrementBalance(s, w, b).value, v, a)
  {
    if v == w {
      IncrementAdditive(s, v, a, b);
      IncrementAdditive(s, v, b, a);
      assert a + b == b + a;
    } else {
      var wv, ww := s.wallets[v], s.wallets[w];
      var vw := s.wallets[v := wv.(balance := wv.balance + a)][w := ww.(balance := ww.balance + b)];
      assert IncrementBalance(IncrementBalance(s, v, a).value, w, b).value.wallets == vw;
      assert IncrementBalance(IncrementBalance(s, w, b).value, v, a).value.wallets == vw;
    }
  }

  /**
   * `updateBalance(id, amount, prismaClient?)`: the update runs on `client`
   * when it is given and on the service's own store `db` otherwise; the other
   * store is not touched. Returns the updated wallet row.
   */
  method UpdateBalance(db: Store, id: Id, amount: int, client: Store?) returns (r: Result<Wallet, Error>)
    modifies if client == null then db else client
    ensures var target := if client == null then db else client;
      var spec := IncrementBalance(old(target.Contents()), id, amount);
      && r.Success? == spec.Success?
      && (spec.Success? ==> target.Contents() == spec.value && r.value == spec.value.wallets[id])
      && (spec.Failure? ==> target.Contents() == old(target.Contents()) && r.error == spec.error)
  {
    var prisma := if client == null then db else client;
    if id !in prisma.wallets {
      return Failure(RecordNotFound("wallet"));
    }
    var w := prisma.wallets[id];
    prisma.wallets := prisma.wallets[id := w.(balance := w.balance + amount)];
    r := Success(prisma.wallets[id]);
  }
}
