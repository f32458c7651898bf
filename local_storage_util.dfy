/**
 * The badge store: an ordered list of badge records kept under the wallet key
 * of the browser's localStorage, and a dark-mode flag kept under a second key.
 *
 * localStorage is modelled as one typed cell per key. A cell holds the parsed
 * value, so JSON (de)serialisation is not modelled; `Corrupt` stands for a
 * wallet entry that cannot be read back (getItem or JSON.parse throws).
 * `writable` says whether setItem succeeds; when it does not (quota exceeded,
 * storage disabled) every write throws.
 */
module LocalStorageUtil {
  import opened Wrappers
  import opened Strings

  datatype NFT = NFT(id: string, name: string, description: string, image: string, createdAt: string)

  /** What addNFT receives: a record without `id` and `createdAt`. */
  datatype NFTData = NFTData(name: string, description: string, image: string)

  /** A partial record for updateNFT: `None` stands for a key that is not supplied. */
  datatype NFTUpdate = NFTUpdate(name: Option<string>, description: Option<string>, image: Option<string>)

  /** The wallet entry: missing (or the empty string), a readable list, or unreadable. */
  datatype WalletCell = Absent | Valid(nfts: seq<NFT>) | Corrupt

  const ID_PREFIX: string := "edusign_"
  const MINT_FAILED: string := "Failed to mint NFT"

  /** The seed images are Unsplash photos cropped to 300x300. */
  function UnsplashPhoto(photo: string): string {
    "https://images.unsplash.com/photo-" + photo + "?w=300&h=300&fit=crop&crop=center"
  }

  const PYTHON_NAME: string := "Python Fundamentals Badge"
  const PYTHON_DESCRIPTION: string := "Awarded for completing the comprehensive Python Fundamentals course on EduSign"
  const JAVA_NAME: string := "Java OOP Certification"
  const JAVA_DESCRIPTION: string := "Certified mastery of Object-Oriented Programming principles in Java"
  const WEB_NAME: string := "Web Dev Bootcamp Completion"
  const WEB_DESCRIPTION: string := "Successfully completed the full-stack web development bootcamp program"

  /** The three records written on the first read. */
  function InitialNFTs(): (s: seq<NFT>)
    ensures |s| == 3
  {
    [ NFT("edusign_001", PYTHON_NAME, PYTHON_DESCRIPTION,
          UnsplashPhoto("1526379095098-d400fd0bf935"), "2025-01-15T10:30:00.000Z"),
      NFT("edusign_002", JAVA_NAME, JAVA_DESCRIPTION,
          UnsplashPhoto("1517077304055-6e89abbf09b0"), "2025-02-20T14:15:00.000Z"),
      NFT("edusign_003", WEB_NAME, WEB_DESCRIPTION,
          UnsplashPhoto("1498050108023-c5249f4df085"), "2025-03-10T16:45:00.000Z") ]
  }

  predicate UniqueIds(s: seq<NFT>) {
    forall i, j :: 0 <= i < j < |s| ==> s[i].id != s[j].id
  }

  predicate HasId(s: seq<NFT>, id: string) {
    exists k :: 0 <= k < |s| && s[k].id == id
  }

  /** The seed records carry distinct ids. */
  lemma InitialIdsUnique()
    ensures UniqueIds(InitialNFTs())
  {
    var s := InitialNFTs();
    assert s[0].id[10] == '1' && s[1].id[10] == '2' && s[2].id[10] == '3';
  }

  // ---------------------------------------------------------------------
  // identifiers

  /** `edusign_<timestamp>_<token>`, where the timestamp is `Date.now()` and the
      token is a slice of `Math.random().toString(36)`; both are inputs here. */
  function GenerateNFTId(timestamp: nat, token: string): (id: string)
    ensures |id| == |ID_PREFIX| + |Decimal(timestamp)| + 1 + |token|
    ensures id[..|ID_PREFIX|] == ID_PREFIX && id[|id| - |token|..] == token
  {
    ID_PREFIX + Decimal(timestamp) + "_" + token
  }

  /** The token `Math.random().toString(36).substring(2, 8)` can produce:
      at most six base-36 digits. */
  predicate IsRandomToken(token: string) {
    |token| <= 6 && forall k :: 0 <= k < |token| ==> IsDigit(token[k]) || 'a' <= token[k] <= 'z'
  }

  /** Where a generated id puts the timestamp's digits and the `_` that ends them. */
  lemma GeneratedIdShape(timestamp: nat, token: string)
    ensures var x, n := GenerateNFTId(timestamp, token), |ID_PREFIX| + |Decimal(timestamp)|;
      && n < |x| && x[n] == '_'
      && x[|ID_PREFIX|..n] == Decimal(timestamp)
      && x[n + 1..] == token
      && forall k :: |ID_PREFIX| <= k < n ==> IsDigit(x[k])
  {
    var x, D := GenerateNFTId(timestamp, token), Decimal(timestamp);
    forall k | |ID_PREFIX| <= k < |ID_PREFIX| + |D| ensures IsDigit(x[k]) {
      assert x[k] == D[k - |ID_PREFIX|];
    }
  }

  /** The id determines the (timestamp, token) pair it was generated from, whatever
      the token holds: the timestamp is all digits, so the first `_` after the
      prefix ends it. Distinct pairs therefore give distinct ids. */
  lemma GeneratedIdInjective(t1: nat, r1: string, t2: nat, r2: string)
    requires GenerateNFTId(t1, r1) == GenerateNFTId(t2, r2)
    ensures t1 == t2 && r1 == r2
  {
    GeneratedIdShape(t1, r1);
    GeneratedIdShape(t2, r2);
    assert |Decimal(t1)| == |Decimal(t2)|;
    DecimalInjective(t1, t2);
  }

  /** A generated id is never one of the seed ids: it has a `_` after the
      prefix, where the seed ids have digits only. */
  lemma GeneratedIdNotSeed(timestamp: nat, token: string)
    ensures !HasId(InitialNFTs(), GenerateNFTId(timestamp, token))
  {
    GeneratedIdShape(timestamp, token);
    var s := InitialNFTs();
    assert forall k, m :: 0 <= k < 3 && |ID_PREFIX| <= m < |s[k].id| ==> s[k].id[m] != '_';
  }

  /** Appending a record whose id is new keeps the ids distinct. */
  lemma AppendFreshKeepsUnique(s: seq<NFT>, n: NFT)
    requires UniqueIds(s)
    requires !HasId(s, n.id)
    ensures UniqueIds(s + [n])
  {
    forall i, j | 0 <= i < j < |s| + 1 ensures (s + [n])[i].id != (s + [n])[j].id {
      if j == |s| {
        assert (s + [n])[i] == s[i];
      } else {
        assert (s + [n])[i] == s[i] && (s + [n])[j] == s[j];
      }
    }
  }

  // ---------------------------------------------------------------------
  // the pure list edits: findIndex, the spread merge, filter

  /** `s.findIndex(nft => nft.id === id)`: the first index holding `id`, or -1. */
  function FindIndex(s: seq<NFT>, id: string): (i: int)
    ensures -1 <= i < |s|
    ensures i == -1 <==> !HasId(s, id)
    ensures 0 <= i ==> s[i].id == id && forall k :: 0 <= k < i ==> s[k].id != id
  {
    if |s| == 0 then -1
    else if s[0].id == id then 0
    else
      var j := FindIndex(s[1..], id);
      if j == -1 then -1 else j + 1
  }

  /** `{ ...nft, ...updates }`: the supplied fields replace the old ones;
      the id and the creation time always stay. */
  function Merge(n: NFT, u: NFTUpdate): (m: NFT)
    ensures m.id == n.id && m.createdAt == n.createdAt
    ensures m.name == (if u.name.Some? then u.name.value else n.name)
    ensures m.description == (if u.description.Some? then u.description.value else n.description)
    ensures m.image == (if u.image.Some? then u.image.value else n.image)
  {
    n.(name := u.name.GetOr(n.name),
       description := u.description.GetOr(n.description),
       image := u.image.GetOr(n.image))
  }

  /** An update that supplies every field: how the wallet passes the form data. */
  function FullUpdate(d: NFTData): NFTUpdate {
    NFTUpdate(Some(d.name), Some(d.description), Some(d.image))
  }

  /** Merging the same update twice is merging it once, and merging nothing changes nothing. */
  lemma MergeIdempotent(n: NFT, u: NFTUpdate)
    ensures Merge(Merge(n, u), u) == Merge(n, u)
    ensures Merge(n, NFTUpdate(None, None, None)) == n
  {
  }

  /** `s.filter(nft => nft.id !== id)` */
  function WithoutId(s: seq<NFT>, id: string): (r: seq<NFT>)
    ensures |r| <= |s|
    ensures forall x :: x in r <==> x in s && x.id != id
    ensures |r| == |s| <==> !HasId(s, id)
    ensures !HasId(s, id) ==> r == s
  {
    if |s| == 0 then []
    else if s[0].id == id then WithoutId(s[1..], id)
    else
      assert HasId(s, id) ==> HasId(s[1..], id) by {
        if HasId(s, id) {
          var k :| 0 <= k < |s| && s[k].id == id;
          assert s[1..][k - 1] == s[k];
        }
      }
      [s[0]] + WithoutId(s[1..], id)
  }

  /** The filter keeps the order of what it keeps: it distributes over concatenation. */
  lemma {:induction false} WithoutIdAppend(a: seq<NFT>, b: seq<NFT>, id: string)
    ensures WithoutId(a + b, id) == WithoutId(a, id) + WithoutId(b, id)
  {
    if a != [] {
      assert (a + b)[1..] == a[1..] + b;
      WithoutIdAppend(a[1..], b, id);
    } else {
      assert a + b == b;
    }
  }

  /** Deleting an id that was present removes at least one record and leaves none with that id. */
  lemma WithoutIdRemoves(s: seq<NFT>, id: string)
    requires HasId(s, id)
    ensures |WithoutId(s, id)| < |s|
    ensures !HasId(WithoutId(s, id), id)
  {
    var r := WithoutId(s, id);
    forall k | 0 <= k < |r| ensures r[k].id != id {
      assert r[k] in r;
    }
  }

  /** Filtering out the id of the one record that carries it drops just that record. */
  lemma WithoutIdSingle(before: seq<NFT>, x: NFT, after: seq<NFT>)
    requires !HasId(before, x.id) && !HasId(after, x.id)
    ensures WithoutId(before + [x] + after, x.id) == before + after
  {
    var tail := [x] + after;
    assert before + [x] + after == before + tail;
    WithoutIdAppend(before, tail, x.id);
    assert tail[1..] == after;
    assert WithoutId(tail, x.id) == WithoutId(after, x.id);
  }

  /** With distinct ids, deleting a present id removes exactly one record. */
  lemma {:induction false} WithoutIdUnique(s: seq<NFT>, id: string)
    requires UniqueIds(s)
    requires HasId(s, id)
    ensures var i := FindIndex(s, id); WithoutId(s, id) == s[..i] + s[i + 1..]
  {
    var i := FindIndex(s, id);
    var before, after := s[..i], s[i + 1..];
    assert !HasId(before, id) by {
      forall k | 0 <= k < |before| ensures before[k].id != id {
        assert before[k] == s[k];
      }
    }
    assert !HasId(after, id) by {
      forall k | 0 <= k < |after| ensures after[k].id != id {
        assert after[k] == s[i + 1 + k];
      }
    }
    assert s == before + [s[i]] + after;
    WithoutIdSingle(before, s[i], after);
  }

  // ---------------------------------------------------------------------
  // the two storage cells

  /** The contents of a wallet cell as a list, `[]` when there is none to read. */
  function CellContents(c: WalletCell): seq<NFT> {
    if c.Valid? then c.nfts else []
  }

  /** `getDarkMode()` on a cell: an unset flag reads as false. */
  function DarkModeOf(cell: Option<bool>): (b: bool)
    ensures b <==> cell == Some(true)
  {
    cell.GetOr(false)
  }

  class Storage {
    var wallet: WalletCell
    var darkMode: Option<bool>
    const writable: bool

    constructor (wallet: WalletCell, darkMode: Option<bool>, writable: bool)
      ensures this.wallet == wallet && this.darkMode == darkMode && this.writable == writable
    {
      this.wallet := wallet;
      this.darkMode := darkMode;
      this.writable := writable;
    }

    /** The wallet cell after getNFTs: a missing entry is seeded when the write succeeds. */
    function AfterRead(): (c: WalletCell)
      reads this
      ensures c == wallet || (wallet.Absent? && c == Valid(InitialNFTs()))
    {
      if wallet.Absent? && writable then Valid(InitialNFTs()) else wallet
    }

    /** What getNFTs returns in the current state. */
    function Listed(): (s: seq<NFT>)
      reads this
      ensures wallet.Valid? ==> s == wallet.nfts
      ensures wallet.Corrupt? ==> s == []
      ensures wallet.Absent? ==> s == (if writable then InitialNFTs() else [])
    {
      CellContents(AfterRead())
    }

    /** `getNFTs()` */
    method GetNFTs() returns (nfts: seq<NFT>)
      modifies this`wallet
      ensures nfts == old(Listed())
      ensures wallet == old(AfterRead())
      ensures Listed() == nfts
    {
      match wallet {
        case Absent =>
          if writable {
            wallet := Valid(InitialNFTs());
            nfts := InitialNFTs();
          } else {
            nfts := [];
          }
        case Valid(s) =>
          nfts := s;
        case Corrupt =>
          nfts := [];
      }
    }

    /** `addNFT(data)` with `Date.now()`, the random token and the ISO time as inputs. */
    method AddNFT(data: NFTData, timestamp: nat, token: string, now: string) returns (r: Result<NFT, string>)
      modifies this`wallet
      ensures writable ==>
        && r == Ok(NFT(GenerateNFTId(timestamp, token), data.name, data.description, data.image, now))
        && wallet == Valid(old(Listed()) + [r.value])
      ensures !writable ==> r == Err(MINT_FAILED) && wallet == old(wallet)
      ensures Listed() == if writable then old(Listed()) + [r.value] else old(Listed())
    {
      var existing := GetNFTs();
      var n := NFT(GenerateNFTId(timestamp, token), data.name, data.description, data.image, now);
      if writable {
        wallet := Valid(existing + [n]);
        r := Ok(n);
      } else {
        r := Err(MINT_FAILED);
      }
    }

    /** `updateNFT(id, updates)`: the first record with `id` takes the supplied fields. */
    method UpdateNFT(id: string, updates: NFTUpdate) returns (r: Option<NFT>)
      modifies this`wallet
      ensures var before := old(Listed()); var i := FindIndex(before, id);
        if i >= 0 && writable then
          && r == Some(Merge(before[i], updates))
          && wallet == Valid(before[i := r.value])
        else
          r == None && wallet == old(AfterRead())
      ensures Listed() == if r.Some? then old(Listed())[FindIndex(old(Listed()), id) := r.value] else old(Listed())
    {
      var existing := GetNFTs();
      var i := FindIndex(existing, id);
      if i == -1 {
        r := None;
        return;
      }
      var updated := Merge(existing[i], updates);
      if writable {
        wallet := Valid(existing[i := updated]);
        r := Some(updated);
      } else {
        r := None;
      }
    }

    /** `deleteNFT(id)`: drops every record with `id`; false when there is none (or the write fails). */
    method DeleteNFT(id: string) returns (removed: bool)
      modifies this`wallet
      ensures removed <==> HasId(old(Listed()), id) && writable
      ensures wallet == if removed then Valid(WithoutId(old(Listed()), id)) else old(AfterRead())
      ensures Listed() == WithoutId(old(Listed()), id) || (!removed && Listed() == old(Listed()))
    {
      var existing := GetNFTs();
      var filtered := WithoutId(existing, id);
      if |filtered| == |existing| {
        removed := false;
        return;
      }
      if writable {
        wallet := Valid(filtered);
        removed := true;
      } else {
        removed := false;
      }
    }

    /** `clearWallet()`: removes the wallet entry, so the next read seeds again. */
    method ClearWallet()
      modifies this`wallet
      ensures wallet == Absent
      ensures Listed() == if writable then InitialNFTs() else []
    {
      wallet := Absent;
    }

    /** `getDarkMode()` */
    method GetDarkMode() returns (b: bool)
      ensures b == DarkModeOf(darkMode)
    {
      match darkMode {
        case Some(v) => b := v;
        case None => b := false;
      }
    }

    /** `setDarkMode(isDark)`: a failed write is swallowed. */
    method SetDarkMode(isDark: bool)
      modifies this`darkMode
      ensures darkMode == if writable then Some(isDark) else old(darkMode)
      ensures writable ==> DarkModeOf(darkMode) == isDark
    {
      if writable {
        darkMode := Some(isDark);
      }
    }
  }

  /** First use: reading seeds the three records, and reading again gives the same three. */
  method SeedOnFirstRead(dark: Option<bool>)
  {
    var store := new Storage(Absent, dark, true);
    var first := store.GetNFTs();
    assert first == InitialNFTs() && store.wallet == Valid(InitialNFTs());
    var second := store.GetNFTs();
    assert second == first;
    store.ClearWallet();
    var third := store.GetNFTs();
    assert third == InitialNFTs() && store.darkMode == dark;
  }
}
