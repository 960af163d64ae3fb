/** The coin-lockup NFT of the mine-with-friends board (`lockup.rs`): coins
    are moved into a fresh, non-transferable NFT account, and a scheduled
    callback hands the account's whole balance to the NFT's owner once the
    game clock reaches the release time.  The board is reduced to the parts
    these two operations touch; a token's ledger is a map from entity to
    balance, and a transfer is all-or-nothing. */
module Lockup {
  type EntityID = nat
  type TokenPointer = nat
  type Ledger = map<EntityID, nat>

  /** `u128::max_value()`: a transfer count that can never be reached. */
  const U128_MAX: nat := 0xFFFF_FFFF_FFFF_FFFF_FFFF_FFFF_FFFF_FFFF

  datatype BaseNft = BaseNft(owner: EntityID, nftId: EntityID, transferCount: nat)

  /** The scheduled release of one lockup. */
  datatype CoinLockup = CoinLockup(id: EntityID, timeWhenFree: nat, asset: TokenPointer)

  /** `Callback::time`: when the scheduler should run the release. */
  function Time(lock: CoinLockup): nat {
    lock.timeWhenFree
  }

  /** `balance_check`: an entity without an entry holds nothing. */
  function Balance(ledger: Ledger, e: EntityID): nat {
    if e in ledger then ledger[e] else 0
  }

  /** A token transfer: it fails, changing nothing, when the sender holds
      less than the amount; otherwise the amount moves from sender to
      receiver and every other balance stays as it was. */
  function Transfer(ledger: Ledger, from: EntityID, to: EntityID, amount: nat): (r: (Ledger, bool))
    ensures r.1 <==> Balance(ledger, from) >= amount
    ensures !r.1 ==> r.0 == ledger
    ensures r.1 && from != to ==>
              Balance(r.0, from) == Balance(ledger, from) - amount &&
              Balance(r.0, to) == Balance(ledger, to) + amount
    ensures r.1 && from == to ==> Balance(r.0, from) == Balance(ledger, from)
    ensures forall e :: e != from && e != to ==> Balance(r.0, e) == Balance(ledger, e)
    ensures forall e :: e in r.0 ==> e in ledger || e == from || e == to
  {
    if Balance(ledger, from) < amount then (ledger, false)
    else
      var debited := ledger[from := Balance(ledger, from) - amount];
      (debited[to := Balance(debited, to) + amount], true)
  }

  /** A transfer neither creates nor destroys coins: what sender and receiver
      hold together is unchanged. */
  lemma TransferConserves(ledger: Ledger, from: EntityID, to: EntityID, amount: nat)
    ensures var after := Transfer(ledger, from, to, amount).0;
            from != to ==> Balance(after, from) + Balance(after, to) == Balance(ledger, from) + Balance(ledger, to)
  {
  }

  /** Locking coins into a fresh account and releasing that account's whole
      balance gives the owner back exactly what they held, and leaves the
      lockup account empty, whether or not the lockup transfer went through. */
  lemma LockThenReleaseRestores(ledger: Ledger, owner: EntityID, lockId: EntityID, amount: nat)
    requires owner != lockId && Balance(ledger, lockId) == 0
    ensures var locked := Transfer(ledger, owner, lockId, amount).0;
            var released := Transfer(locked, lockId, owner, Balance(locked, lockId)).0;
            && Balance(released, owner) == Balance(ledger, owner)
            && Balance(released, lockId) == 0
            && forall e :: e != owner && e != lockId ==> Balance(released, e) == Balance(ledger, e)
  {
  }

  class GameBoard {
    var nfts: map<EntityID, BaseNft>
    var callbacks: seq<CoinLockup>
    var tokens: map<TokenPointer, Ledger>
    /** The next id `alloc` hands out. */
    var nextEntity: EntityID
    var currentTime: nat

    /** Every NFT sits under its own id, which `alloc` has already handed out. */
    ghost predicate Valid()
      reads this
    {
      forall id :: id in nfts ==> nfts[id].nftId == id && id < nextEntity
    }

    constructor (tokens: map<TokenPointer, Ledger>, firstEntity: EntityID, now: nat)
      ensures Valid()
      ensures this.nfts == map[] && this.callbacks == [] && this.tokens == tokens
      ensures this.nextEntity == firstEntity && this.currentTime == now
    {
      this.nfts := map[];
      this.callbacks := [];
      this.tokens := tokens;
      this.nextEntity := firstEntity;
      this.currentTime := now;
    }

    /** `alloc`: a fresh entity id. */
    method Alloc() returns (id: EntityID)
      modifies this`nextEntity
      ensures id == old(nextEntity) && nextEntity == id + 1
    {
      id := nextEntity;
      nextEntity := nextEntity + 1;
    }

    /** `CoinLockup::lockup`.  The transfer's failure is ignored: the NFT and
        its release are created even when the owner cannot cover `amount`. */
    method Lockup(owner: EntityID, asset: TokenPointer, amount: nat, timeWhenFree: nat)
      requires Valid()
      requires asset in tokens
      modifies this
      ensures Valid()
      ensures nextEntity == old(nextEntity) + 1
      ensures nfts == old(nfts)[old(nextEntity) := BaseNft(owner, old(nextEntity), U128_MAX)]
      ensures old(nextEntity) !in old(nfts)
      ensures callbacks == old(callbacks) + [CoinLockup(old(nextEntity), timeWhenFree, asset)]
      ensures Time(callbacks[|callbacks| - 1]) == timeWhenFree
      ensures tokens == old(tokens)[asset := Transfer(old(tokens)[asset], owner, old(nextEntity), amount).0]
      ensures currentTime == old(currentTime)
    {
      var nftId := Alloc();
      var lockupBase := BaseNft(owner, nftId, U128_MAX);
      nfts := nfts[nftId := lockupBase];
      var lockup := CoinLockup(nftId, timeWhenFree, asset);
      callbacks := callbacks + [lockup];
      var (ledger, _) := Transfer(tokens[asset], owner, nftId, amount);
      tokens := tokens[asset := ledger];
    }

    /** `Callback::action` of a lockup: before its time nothing happens;
        from then on the NFT's current owner receives the whole balance of
        the lockup account.  The owner is looked up first, so the NFT must
        exist even when it is too early. */
    method Action(lock: CoinLockup)
      requires lock.id in nfts && lock.asset in tokens
      modifies this`tokens
      ensures currentTime < Time(lock) ==> tokens == old(tokens)
      ensures currentTime >= Time(lock) ==>
                var ledger := old(tokens)[lock.asset];
                tokens == old(tokens)[lock.asset := Transfer(ledger, lock.id, nfts[lock.id].owner, Balance(ledger, lock.id)).0]
    {
      var owner := nfts[lock.id].owner;
      if currentTime < lock.timeWhenFree {
        return;
      }
      var balance := Balance(tokens[lock.asset], lock.id);
      var (ledger, _) := Transfer(tokens[lock.asset], lock.id, owner, balance);
      tokens := tokens[lock.asset := ledger];
    }
  }

  /** Releasing a lockup always succeeds: it moves the whole balance, so the
      lockup account ends empty and the owner gains exactly that balance. */
  lemma ReleaseEmptiesLockup(ledger: Ledger, lockId: EntityID, owner: EntityID)
    requires lockId != owner
    ensures var r := Transfer(ledger, lockId, owner, Balance(ledger, lockId));
            && r.1
            && Balance(r.0, lockId) == 0
            && Balance(r.0, owner) == Balance(ledger, owner) + Balance(ledger, lockId)
  {
  }
}
