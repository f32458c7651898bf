/**
 * The badge card: the `#TAG` label derived from the record's id, and the
 * image's loading / error state that decides which picture is shown.
 */
module NFTCard {
  import opened Strings
  import opened LocalStorageUtil

  const FALLBACK_IMAGE: string := UnsplashPhoto("1547954575-855750c57bd3")

  /** `nft.id.split('_').pop()?.toUpperCase()`: `split` always yields at least
      one piece, so `pop` always has something to return. */
  function IdTag(id: string): string {
    UpperAscii(LastPiece(id, '_'))
  }

  /** The tag is the upper-cased text after the last `_` of the id, or the
      whole id upper-cased when it has none; it never holds a `_`. */
  lemma IdTagSpec(id: string)
    ensures '_' !in IdTag(id)
    ensures exists cut :: (0 <= cut <= |id| && IdTag(id) == UpperAscii(id[cut..])
                           && '_' !in id[cut..] && (cut == 0 || id[cut - 1] == '_'))
    ensures '_' !in id ==> IdTag(id) == UpperAscii(id)
  {
    var t := LastPiece(id, '_');
    LastPieceIsSuffix(id, '_');
    UpperAsciiKeepsOut(t, '_');
    var cut := |id| - |t|;
    assert id[cut..] == t;
    if '_' !in id {
      LastPieceNoSep(id, '_');
    }
  }

  /** The seed ids show their three-digit number. */
  lemma SeedTags()
    ensures IdTag("edusign_001") == "001"
    ensures IdTag("edusign_002") == "002"
    ensures IdTag("edusign_003") == "003"
  {
    LastPieceAfterSep("edusign", '_', "001");
    LastPieceAfterSep("edusign", '_', "002");
    LastPieceAfterSep("edusign", '_', "003");
    assert "edusign" + ['_'] + "001" == "edusign_001";
    assert "edusign" + ['_'] + "002" == "edusign_002";
    assert "edusign" + ['_'] + "003" == "edusign_003";
  }

  /** A generated id shows its random token, upper-cased. */
  lemma GeneratedTag(timestamp: nat, token: string)
    requires IsRandomToken(token)
    ensures IdTag(GenerateNFTId(timestamp, token)) == UpperAscii(token)
  {
    var head := ID_PREFIX + Decimal(timestamp);
    assert GenerateNFTId(timestamp, token) == head + ['_'] + token;
    assert '_' !in token by {
      forall k | 0 <= k < |token| ensures token[k] != '_' { }
    }
    LastPieceAfterSep(head, '_', token);
  }

  /** The card's `src`: the fallback picture once loading the record's image failed. */
  function ImageSrc(nft: NFT, imageError: bool): (src: string)
    ensures imageError ==> src == FALLBACK_IMAGE
    ensures !imageError ==> src == nft.image
  {
    if imageError then FALLBACK_IMAGE else nft.image
  }

  /** The two flags of one card. */
  class CardState {
    var imageError: bool
    var imageLoading: bool

    constructor ()
      ensures !imageError && imageLoading
    {
      imageError := false;
      imageLoading := true;
    }

    /** `handleImageError` */
    method HandleImageError()
      modifies this
      ensures imageError && !imageLoading
    {
      imageError := true;
      imageLoading := false;
    }

    /** `handleImageLoad`: the error flag is left as it was. */
    method HandleImageLoad()
      modifies this
      ensures !imageLoading && imageError == old(imageError)
    {
      imageLoading := false;
    }
  }

  /** Once an image has failed, the card keeps showing the fallback, whatever loads later. */
  method ErrorIsSticky(nft: NFT)
  {
    var card := new CardState();
    assert ImageSrc(nft, card.imageError) == nft.image;
    card.HandleImageError();
    card.HandleImageLoad();
    assert ImageSrc(nft, card.imageError) == FALLBACK_IMAGE && !card.imageLoading;
  }
}
