/**
 * The wallet page's controller: the in-memory badge list `nfts`, the loading,
 * dark-mode, form and delete-confirmation state, and the handlers that call
 * the badge store and then repeat its edit on `nfts`.
 *
 * The view list is meant to track the store (`Synced`). Every handler keeps
 * it in step, except the confirmed clear: the view empties while the next
 * store read seeds the three starter badges again.
 */
module FakeWallet {
  import opened Wrappers
  import opened Strings
  import opened LocalStorageUtil

  /** `prev.map(nft => nft.id === id ? updated : nft)` */
  function ReplaceById(s: seq<NFT>, id: string, updated: NFT): (r: seq<NFT>)
    ensures |r| == |s|
    ensures forall k :: 0 <= k < |s| ==> r[k] == (if s[k].id == id then updated else s[k])
  {
    seq(|s|, k requires 0 <= k < |s| => if s[k].id == id then updated else s[k])
  }

  /** With distinct ids, replacing every match is replacing the first one, as
      the store does. */
  lemma ReplaceByIdFirst(s: seq<NFT>, id: string, updated: NFT)
    requires UniqueIds(s)
    requires HasId(s, id)
    ensures ReplaceById(s, id, updated) == s[FindIndex(s, id) := updated]
  {
    var i := FindIndex(s, id);
    forall k | 0 <= k < |s| && k != i
      ensures s[k].id != id
    {
      assert k < i || i < k;
    }
  }

  /** Replacing a record by one with the same id keeps the ids distinct. */
  lemma ReplaceByIdKeepsUnique(s: seq<NFT>, id: string, updated: NFT)
    requires UniqueIds(s)
    requires updated.id == id
    ensures UniqueIds(ReplaceById(s, id, updated))
  {
  }

  /** The header's count: `${n} Badge`, plus `s` unless there is exactly one. */
  function BadgeCountLabel(n: nat): string {
    Decimal(n) + " Badge" + (if n != 1 then "s" else "")
  }

  /** The label starts with the count's digits, which read back as the count,
      and it is plural exactly when the count is not one. */
  lemma BadgeCountLabelSpec(n: nat)
    ensures var text := BadgeCountLabel(n); var d := Decimal(n);
      && text[..|d|] == d
      && DecimalValue(text[..|d|]) == n
      && text[|d|..] == (if n == 1 then " Badge" else " Badges")
      && (text[|text| - 1] == 's' <==> n != 1)
  {
    DecimalRoundTrip(n);
    var text, d := BadgeCountLabel(n), Decimal(n);
    assert text == d + (if n == 1 then " Badge" else " Badges");
  }

  class WalletView {
    const store: Storage
    var nfts: seq<NFT>
    var isLoading: bool
    var isMintFormOpen: bool
    var editingNFT: Option<NFT>
    var isDarkMode: bool
    var showDeleteConfirm: Option<string>

    /** The view shows what the store would return. */
    ghost predicate Synced()
      reads this, store
    {
      nfts == store.Listed()
    }

    /** The state before the mount effect has run. */
    constructor (store: Storage)
      ensures this.store == store
      ensures nfts == [] && isLoading && !isMintFormOpen && editingNFT.None?
      ensures !isDarkMode && showDeleteConfirm.None?
    {
      this.store := store;
      nfts := [];
      isLoading := true;
      isMintFormOpen := false;
      editingNFT := None;
      isDarkMode := false;
      showDeleteConfirm := None;
    }

    /** `loadData()`: the view takes the store's records and dark-mode flag. */
    method LoadData()
      modifies this`nfts, this`isDarkMode, this`isLoading, store`wallet
      ensures nfts == old(store.Listed())
      ensures store.wallet == old(store.AfterRead())
      ensures Synced()
      ensures isDarkMode == DarkModeOf(store.darkMode)
      ensures !isLoading
    {
      var storedNFTs := store.GetNFTs();
      var darkMode := store.GetDarkMode();
      nfts := storedNFTs;
      isDarkMode := darkMode;
      isLoading := false;
    }

    /** `toggleDarkMode()`: the flag flips and is written to the store. */
    method ToggleDarkMode()
      modifies this`isDarkMode, store`darkMode
      ensures isDarkMode == !old(isDarkMode)
      ensures store.darkMode == if store.writable then Some(isDarkMode) else old(store.darkMode)
      ensures store.writable ==> DarkModeOf(store.darkMode) == isDarkMode
    {
      var newDarkMode := !isDarkMode;
      isDarkMode := newDarkMode;
      store.SetDarkMode(newDarkMode);
    }

    /** `handleMintNFT(data)` after the simulated delay. Editing: the store's
        record with the edited id takes the data, every view entry with that id
        is replaced by the result, and the edit ends. Creating: the new record
        is appended; when the store write fails, `addNFT` throws and the
        message is returned. */
    method HandleMintNFT(data: NFTData, timestamp: nat, token: string, now: string)
      returns (thrown: Option<string>)
      modifies this`nfts, this`editingNFT, store`wallet
      ensures old(editingNFT).Some? ==>
        && thrown.None? && editingNFT.None?
        && var id := old(editingNFT).value.id;
          var i := FindIndex(old(store.Listed()), id);
          if i >= 0 && store.writable then
            var updated := Merge(old(store.Listed())[i], FullUpdate(data));
            && nfts == ReplaceById(old(nfts), id, updated)
            && store.wallet == Valid(old(store.Listed())[i := updated])
          else
            nfts == old(nfts) && store.wallet == old(store.AfterRead())
      ensures old(editingNFT).None? ==>
        && editingNFT.None?
        && var n := NFT(GenerateNFTId(timestamp, token), data.name, data.description, data.image, now);
          && (store.writable ==>
                && thrown.None?
                && nfts == old(nfts) + [n]
                && store.wallet == Valid(old(store.Listed()) + [n]))
          && (!store.writable ==> thrown == Some(MINT_FAILED) && nfts == old(nfts) && store.wallet == old(store.wallet))
      ensures old(editingNFT).Some? && old(Synced()) && UniqueIds(old(nfts)) ==> Synced() && UniqueIds(nfts)
      ensures old(editingNFT).None? && old(Synced()) ==> Synced()
    {
      thrown := None;
      match editingNFT {
        case Some(editing) =>
          var updatedNFT := store.UpdateNFT(editing.id, FullUpdate(data));
          if updatedNFT.Some? {
            ghost var before := nfts;
            nfts := ReplaceById(nfts, editing.id, updatedNFT.value);
            if old(Synced()) && UniqueIds(before) {
              ReplaceByIdFirst(before, editing.id, updatedNFT.value);
              ReplaceByIdKeepsUnique(before, editing.id, updatedNFT.value);
            }
          }
          editingNFT := None;
        case None =>
          var newNFT := store.AddNFT(data, timestamp, token, now);
          match newNFT {
            case Ok(n) => nfts := nfts + [n];
            case Err(message) => thrown := Some(message);
          }
      }
    }

    /** `handleEditNFT(nft)`: the form opens on that record. */
    method HandleEditNFT(nft: NFT)
      modifies this`editingNFT, this`isMintFormOpen
      ensures editingNFT == Some(nft) && isMintFormOpen
    {
      editingNFT := Some(nft);
      isMintFormOpen := true;
    }

    /** `handleDeleteNFT(id)`: the confirmation dialog opens for that id. */
    method HandleDeleteNFT(id: string)
      modifies this`showDeleteConfirm
      ensures showDeleteConfirm == Some(id)
    {
      showDeleteConfirm := Some(id);
    }

    /** `confirmDelete(id)`: the view drops the id only when the store reports a
        deletion; the dialog closes either way. */
    method ConfirmDelete(id: string)
      modifies this`nfts, this`showDeleteConfirm, store`wallet
      ensures var removed := HasId(old(store.Listed()), id) && store.writable;
        && nfts == (if removed then WithoutId(old(nfts), id) else old(nfts))
        && store.wallet == if removed then Valid(WithoutId(old(store.Listed()), id)) else old(store.AfterRead())
      ensures showDeleteConfirm.None?
      ensures old(Synced()) ==> Synced()
    {
      var removed := store.DeleteNFT(id);
      if removed {
        nfts := WithoutId(nfts, id);
      }
      showDeleteConfirm := None;
    }

    /** The delete dialog's cancel button. */
    method CancelDelete()
      modifies this`showDeleteConfirm
      ensures showDeleteConfirm.None?
    {
      showDeleteConfirm := None;
    }

    /** `handleClearWallet()` with the answer to the confirmation prompt: a
        confirmed clear removes the store entry and empties the view. The next
        read of a writable store seeds the starter badges, so the view no
        longer matches the store. */
    method HandleClearWallet(confirmed: bool)
      modifies this`nfts, store`wallet
      ensures confirmed ==> nfts == [] && store.wallet == Absent
      ensures confirmed && store.writable ==> store.Listed() == InitialNFTs() && !Synced()
      ensures !confirmed ==> nfts == old(nfts) && store.wallet == old(store.wallet)
    {
      if confirmed {
        store.ClearWallet();
        nfts := [];
      }
    }

    /** `openMintForm()`: the form opens empty, for a new badge. */
    method OpenMintForm()
      modifies this`editingNFT, this`isMintFormOpen
      ensures editingNFT.None? && isMintFormOpen
    {
      editingNFT := None;
      isMintFormOpen := true;
    }

    /** The form's `onClose`: it closes and any edit ends. */
    method CloseMintForm()
      modifies this`editingNFT, this`isMintFormOpen
      ensures editingNFT.None? && !isMintFormOpen
    {
      isMintFormOpen := false;
      editingNFT := None;
    }
  }

  /** A session: load a fresh store, mint one badge, then clear. */
  method MintThenClear(data: NFTData, timestamp: nat, token: string, now: string)
  {
    var store := new Storage(Absent, None, true);
    var view := new WalletView(store);
    view.LoadData();
    assert view.nfts == InitialNFTs() && !view.isDarkMode;
    var thrown := view.HandleMintNFT(data, timestamp, token, now);
    assert thrown.None? && |view.nfts| == 4 && view.Synced();
    view.HandleClearWallet(true);
    assert view.nfts == [] && !view.Synced();
  }
}
