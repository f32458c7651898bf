# EduSign badge wallet — Dafny model

EduSign is a browser app that keeps "NFT" achievement badges in the
browser's `localStorage`. This project models its core:

- **The badge store** (`local_storage_util.dfy`, module `LocalStorageUtil`):
  the three starter badges written on the first read, badge ids of the form
  `edusign_<timestamp>_<token>`, and `getNFTs`, `addNFT`, `updateNFT`,
  `deleteNFT`, `clearWallet`, `getDarkMode`, `setDarkMode` as methods of a
  `Storage` class. Its fields are the wallet entry and the dark-mode entry,
  plus a flag that says whether writes succeed.
- **The mint / edit form** (`mint_form.dfy`, module `MintForm`): the
  field rules and their messages, `validateForm`, `handleSubmit`,
  `handleInputChange`, `selectSuggestedImage`, and the effect that refills
  the form.
- **The course recommender** (`course_recommender.dfy`, module
  `CourseRecommender`): the badge list in the advisor prompt, the two chat
  messages sent per question, and the transcript / loading / input state of
  `sendQuery`.
- **The wallet page** (`fake_wallet.dfy`, module `FakeWallet`): the
  handlers that call the store and then make the same edit on the in-memory
  list. The predicate `Synced` says the view list equals what the store
  would return. Every handler keeps `Synced` except a confirmed clear on a
  writable store: the view empties, but the next store read seeds the
  starter badges again. Edit-mode `HandleMintNFT` keeps it while ids are
  distinct.
- **The badge card** (`nft_card.dfy`, module `NFTCard`): the `#TAG` label
  built from the id, the image error / loading flags, and the choice of
  image.
- `strings.dfy` (module `Strings`) models the JavaScript string built-ins
  the app uses: `trim`, `split`/`join` on one character, ASCII
  `toUpperCase`, and the decimal text of a number. `wrappers.dfy` holds
  `Option` and `Result`.

Inputs that the app gets from the environment are parameters here:
`Date.now()` (`timestamp`), the random token, the ISO creation time (`now`),
the URL parser (`isValidUrl`), the user's answer to `window.confirm`, whether
`onMint` resolves, and how the chat request ended (`Response`).

`deleteNFT` removes every record with the given id, not just one.
`handleMintNFT` in edit mode replaces every view entry with that id, while the
store's `updateNFT` changes only the first. `UniqueIds` plus
`FakeWallet.ReplaceByIdFirst` show the two agree whenever ids are distinct.
The imports in `FakeWallet.tsx`, `NFTCard.tsx` and `CourseRecommender.tsx`
use mismatched paths. They are read as the store module and the card
component.

## Model

| member | source | states |
|---|---|---|
| Strings.Trim | src/components/MintForm.tsx:51 | `trim` drops leading and trailing whitespace; `Strings.TrimStartSpec`, `Strings.TrimEndSpec` and `Strings.TrimEmptyIff` state what it keeps |
| Strings.TrimStartSpec | src/components/MintForm.tsx:51 | leading trim drops only whitespace and leaves a suffix that does not start with whitespace |
| Strings.TrimEndSpec | src/components/MintForm.tsx:51 | trailing trim drops only whitespace and leaves a prefix that does not end with whitespace |
| Strings.TrimEmptyIff | src/components/MintForm.tsx:51-63 | `!s.trim()` holds exactly when every character of `s` is whitespace |
| Strings.TrimHasNoOuterWhitespace | src/components/CourseRecommender.tsx:51 | a trimmed string neither starts nor ends with whitespace |
| Strings.Split | src/components/NFTCard.tsx:79 | `split` yields at least one piece and no piece holds the separator |
| Strings.Join | src/components/CourseRecommender.tsx:16 | `join` puts the separator between consecutive pieces; `Strings.JoinSplit` and `Strings.SplitJoin` relate it to `split` |
| Strings.JoinSplit | src/components/NFTCard.tsx:79 | joining the pieces of a split gives back the string |
| Strings.SplitJoin | src/components/CourseRecommender.tsx:14-16 | splitting a join of separator-free pieces gives back the pieces |
| Strings.SplitAppend | src/components/NFTCard.tsx:79 | splitting at a separator splits the parts on either side of it |
| Strings.LastPiece | src/components/NFTCard.tsx:79 | `pop` of a split, which always has a piece to return; `Strings.LastPieceIsSuffix` states which piece |
| Strings.LastPieceIsSuffix | src/components/NFTCard.tsx:79 | the last piece of a split is the suffix after the last separator, or the whole string when there is none |
| Strings.UpperAscii | src/components/NFTCard.tsx:79 | upper-casing keeps the length and maps each character on its own |
| Strings.Decimal | src/lib/LocalStorageUtil.ts:39-41 | a number's decimal text is all digits, non-empty, with no leading zero |
| Strings.DecimalRoundTrip | src/lib/LocalStorageUtil.ts:39-41 | reading the decimal text back gives the number |
| Strings.DecimalInjective | src/lib/LocalStorageUtil.ts:39-41 | distinct numbers have distinct decimal texts |
| LocalStorageUtil.InitialNFTs | src/lib/LocalStorageUtil.ts:13-35 | there are exactly three starter badges |
| LocalStorageUtil.InitialIdsUnique | src/lib/LocalStorageUtil.ts:13-35 | the starter badges have distinct ids |
| LocalStorageUtil.GenerateNFTId | src/lib/LocalStorageUtil.ts:38-42 | the id starts with `edusign_`, ends with the token, and its length is the prefix, the timestamp's digits, the `_` and the token |
| LocalStorageUtil.GeneratedIdShape | src/lib/LocalStorageUtil.ts:37-42 | a generated id is the prefix, the timestamp's digits, `_`, then the token |
| LocalStorageUtil.GeneratedIdInjective | src/lib/LocalStorageUtil.ts:37-42 | the id determines its timestamp and token, so distinct pairs give distinct ids |
| LocalStorageUtil.GeneratedIdNotSeed | src/lib/LocalStorageUtil.ts:13-42 | no generated id equals a starter badge id |
| LocalStorageUtil.AppendFreshKeepsUnique | src/lib/LocalStorageUtil.ts:70 | appending a record with a new id keeps ids distinct |
| LocalStorageUtil.FindIndex | src/lib/LocalStorageUtil.ts:84-88 | `findIndex` gives -1 exactly when the id is absent, else the first index holding it |
| LocalStorageUtil.Merge | src/lib/LocalStorageUtil.ts:90 | the supplied fields replace the record's; id and creation time are kept |
| LocalStorageUtil.MergeIdempotent | src/lib/LocalStorageUtil.ts:90 | applying the same update twice equals applying it once; an empty update changes nothing |
| LocalStorageUtil.WithoutId | src/lib/LocalStorageUtil.ts:106-110 | the filter keeps exactly the records with another id; the length is unchanged exactly when the id is absent |
| LocalStorageUtil.WithoutIdAppend | src/lib/LocalStorageUtil.ts:106 | filtering distributes over concatenation |
| LocalStorageUtil.WithoutIdRemoves | src/lib/LocalStorageUtil.ts:106-110 | when the id is present the list shrinks and no record with it remains |
| LocalStorageUtil.WithoutIdSingle | src/lib/LocalStorageUtil.ts:106 | when only one record carries the id, the filter drops that record and keeps the rest in order |
| LocalStorageUtil.WithoutIdUnique | src/lib/LocalStorageUtil.ts:84-110 | with distinct ids, the delete filter removes exactly the record `findIndex` finds |
| LocalStorageUtil.DarkModeOf | src/lib/LocalStorageUtil.ts:130-138 | the flag reads true exactly when `true` is stored |
| LocalStorageUtil.Storage.constructor | src/lib/LocalStorageUtil.ts:10-11 | the store starts with the given wallet entry, dark-mode entry and write behaviour |
| LocalStorageUtil.Storage.AfterRead | src/lib/LocalStorageUtil.ts:45-53 | a read leaves the entry as it was, or seeds a missing one with the starter badges |
| LocalStorageUtil.Storage.Listed | src/lib/LocalStorageUtil.ts:45-58 | what a read returns: the stored list, `[]` for an unreadable entry, the starter badges (or `[]` if the seeding write fails) for a missing one |
| LocalStorageUtil.Storage.GetNFTs | src/lib/LocalStorageUtil.ts:45-58 | returns `Listed()`, seeds a missing entry, and a second read returns the same list |
| LocalStorageUtil.Storage.AddNFT | src/lib/LocalStorageUtil.ts:61-78 | the new record gets the generated id and time and goes at the end; a failed write returns "Failed to mint NFT" and changes nothing |
| LocalStorageUtil.Storage.UpdateNFT | src/lib/LocalStorageUtil.ts:81-100 | the first record with the id takes the update and is returned; a missing id or failed write returns none |
| LocalStorageUtil.Storage.DeleteNFT | src/lib/LocalStorageUtil.ts:103-118 | true exactly when the id was present and the write succeeded; then every record with it is gone |
| LocalStorageUtil.Storage.ClearWallet | src/lib/LocalStorageUtil.ts:121-127 | the entry is removed, so the next read gives the starter badges again |
| LocalStorageUtil.Storage.GetDarkMode | src/lib/LocalStorageUtil.ts:130-138 | the stored flag, false when unset |
| LocalStorageUtil.Storage.SetDarkMode | src/lib/LocalStorageUtil.ts:140-146 | the flag is stored and reads back; a failed write is swallowed |
| NFTCard.IdTag | src/components/NFTCard.tsx:79 | the tag is the last `_`-separated piece of the id, upper-cased; `NFTCard.IdTagSpec` states what that piece is |
| NFTCard.IdTagSpec | src/components/NFTCard.tsx:79 | the tag is the upper-cased text after the last `_`, never holds `_`, and is the whole id upper-cased when there is no `_` |
| NFTCard.SeedTags | src/components/NFTCard.tsx:79 | the starter ids show `001`, `002`, `003` |
| NFTCard.GeneratedTag | src/components/NFTCard.tsx:79 | a generated id shows its random token upper-cased |
| NFTCard.ImageSrc | src/components/NFTCard.tsx:32-45 | the fallback picture after an image error, the record's image otherwise |
| NFTCard.CardState.constructor | src/components/NFTCard.tsx:12-13 | a card starts loading and without error |
| NFTCard.CardState.HandleImageError | src/components/NFTCard.tsx:15-18 | sets the error flag and stops loading |
| NFTCard.CardState.HandleImageLoad | src/components/NFTCard.tsx:20-22 | stops loading and leaves the error flag as it was |
| MintForm.FormData.With | src/components/MintForm.tsx:96-97 | the edited field takes the value and the other fields keep theirs |
| MintForm.Message | src/components/MintForm.tsx:51-70 | every message is non-empty, so it shows under its field |
| MintForm.LengthProblem | src/components/MintForm.tsx:51-61 | required exactly when blank, too short exactly when the trimmed text is shorter than the minimum, fine otherwise |
| MintForm.ImageProblem | src/components/MintForm.tsx:63-71 | required exactly when blank, invalid exactly when the untrimmed text does not parse as a URL |
| MintForm.FieldProblem | src/components/MintForm.tsx:51-71 | a field is required exactly when it is blank; only the image can be an invalid URL, and only the name and description can be too short |
| MintForm.Record | src/components/MintForm.tsx:51-70 | a failing check adds its field with that check's message; every other entry is kept |
| MintForm.Checks.Errors | src/components/MintForm.tsx:48-74 | one entry per failing check, holding that check's message |
| MintForm.Validate | src/components/MintForm.tsx:48-74 | a field has an entry exactly when its rule fails, and the entry is that rule's message |
| MintForm.ValidateIffRules | src/components/MintForm.tsx:48-74 | no messages exactly when the name has 3 trimmed characters, the description 10, and the image is a non-blank URL |
| MintForm.FieldRulesIndependent | src/components/MintForm.tsx:51-71 | editing one field does not change another field's rule outcome |
| MintForm.EmptyFormErrors | src/components/MintForm.tsx:43-71 | the empty form reports all three fields as required |
| MintForm.InitialForm | src/components/MintForm.tsx:17-21 | the edited record's fields, or an empty form |
| MintForm.AddMessage | src/components/MintForm.tsx:51-70 | one field's message is added when its rule fails |
| MintForm.FormState.constructor | src/components/MintForm.tsx:17-23 | the form starts from the edited record, with no messages |
| MintForm.FormState.ResetForm | src/components/MintForm.tsx:35-46 | the fields are refilled from the edited record, or emptied, and all messages cleared |
| MintForm.FormState.ValidateForm | src/components/MintForm.tsx:48-75 | records exactly the rule messages and reports valid exactly when there are none |
| MintForm.FormState.HandleSubmit | src/components/MintForm.tsx:77-94 | an invalid form mints nothing; a valid one hands its data to `onMint`, and a successful mint empties and closes the form while a failed one keeps the data; `isMinting` is false again afterwards |
| MintForm.FormState.HandleInputChange | src/components/MintForm.tsx:96-101 | only that field changes; its shown message is cleared, other messages stay |
| MintForm.FormState.SelectSuggestedImage | src/components/MintForm.tsx:103-105 | sets the image field to one of the suggested pictures and clears the image message |
| CourseRecommender.BadgeLine | src/components/CourseRecommender.tsx:15 | the line is `- `, the name, `: `, the description, each readable at its offset |
| CourseRecommender.BadgeLines | src/components/CourseRecommender.tsx:14-15 | one line per badge, in wallet order |
| CourseRecommender.ExistingBadges | src/components/CourseRecommender.tsx:14-16 | the badge lines joined by newlines; empty exactly when the wallet is empty |
| CourseRecommender.ExistingBadgesSingle | src/components/CourseRecommender.tsx:14-16 | one badge gives its line alone |
| CourseRecommender.ExistingBadgesSnoc | src/components/CourseRecommender.tsx:14-16 | one more badge adds a newline and its line at the end |
| CourseRecommender.ExistingBadgesLines | src/components/CourseRecommender.tsx:14-16 | when badge texts hold no newline, the list splits back into one line per badge |
| CourseRecommender.SystemPrompt | src/components/CourseRecommender.tsx:27 | the advisor introduction, the badge list, then the advisor task, with the lengths adding up |
| CourseRecommender.SystemPromptRecoversBadges | src/components/CourseRecommender.tsx:27 | the badge list sits between the advisor texts and can be read back |
| CourseRecommender.SystemPromptInjective | src/components/CourseRecommender.tsx:27 | different badge lists give different system prompts |
| CourseRecommender.Messages | src/components/CourseRecommender.tsx:24-33 | exactly two messages: the system prompt built from the badge list, then the user's input verbatim |
| CourseRecommender.QuestionEntry | src/components/CourseRecommender.tsx:22 | the "You" prefix followed by the untrimmed input |
| CourseRecommender.ReplyText | src/components/CourseRecommender.tsx:51 | the reply is empty exactly when there is no content or it is blank; a non-empty reply has whitespace at neither end |
| CourseRecommender.ReplyEntry | src/components/CourseRecommender.tsx:50-54 | the "Bot" prefix with the trimmed reply or "No response"; the "Error" prefix with the error message, or the error's text when the message is empty |
| CourseRecommender.EntryKindsDistinct | src/components/CourseRecommender.tsx:22-54 | question, bot and error entries are told apart by their first character |
| CourseRecommender.CurrentBadges | src/components/CourseRecommender.tsx:14-16 | the badge list of what the store returns, with the read's seeding effect |
| CourseRecommender.Recommender.constructor | src/components/CourseRecommender.tsx:7-9 | empty input, empty transcript, not loading |
| CourseRecommender.Recommender.SetInput | src/components/CourseRecommender.tsx:74 | the box holds the typed value |
| CourseRecommender.Recommender.Ask | src/components/CourseRecommender.tsx:19-33 | blank input: no request and no change; otherwise loading, the question logged, and the two messages returned |
| CourseRecommender.Recommender.Settle | src/components/CourseRecommender.tsx:50-58 | the reply or error entry is logged, loading ends and the box empties |
| CourseRecommender.Recommender.SendQuery | src/components/CourseRecommender.tsx:18-59 | blank input changes nothing; otherwise exactly two entries are appended after the old ones, loading is false and the box is empty |
| FakeWallet.ReplaceById | src/components/FakeWallet.tsx:56 | every entry with the id becomes the updated record, the rest are kept |
| FakeWallet.ReplaceByIdFirst | src/components/FakeWallet.tsx:56 | with distinct ids the view's replace-all equals the store's replace-first |
| FakeWallet.ReplaceByIdKeepsUnique | src/components/FakeWallet.tsx:56 | replacing by a record with the same id keeps ids distinct |
| FakeWallet.BadgeCountLabel | src/components/FakeWallet.tsx:127 | the count's decimal text, ` Badge`, and `s` unless the count is one; `FakeWallet.BadgeCountLabelSpec` states how it reads back |
| FakeWallet.BadgeCountLabelSpec | src/components/FakeWallet.tsx:127 | the label starts with the count's digits, which read back as the count, and is plural exactly when the count is not one |
| FakeWallet.WalletView.constructor | src/components/FakeWallet.tsx:8-13 | empty list, loading, form closed, no edit, light mode, no delete dialog |
| FakeWallet.WalletView.LoadData | src/components/FakeWallet.tsx:17-34 | the view takes the store's list and dark-mode flag, is in sync, and stops loading |
| FakeWallet.WalletView.ToggleDarkMode | src/components/FakeWallet.tsx:37-47 | the flag flips and, when the write succeeds, the store reads back the new flag |
| FakeWallet.WalletView.HandleMintNFT | src/components/FakeWallet.tsx:49-64 | edit: the store's first record with the id takes the data and view entries with the id take the result, or neither list changes, and the edit ends; create: the new record is appended to both the store and the view, or the mint error is thrown and nothing changes; the view stays in sync (when editing, provided ids are distinct) |
| FakeWallet.WalletView.HandleEditNFT | src/components/FakeWallet.tsx:66-69 | the form opens on that record |
| FakeWallet.WalletView.HandleDeleteNFT | src/components/FakeWallet.tsx:71-73 | the delete dialog opens for that id |
| FakeWallet.WalletView.ConfirmDelete | src/components/FakeWallet.tsx:75-80 | when the store deleted the id it is filtered out of both the store and the view, otherwise neither changes beyond the read; the dialog closes; sync is kept |
| FakeWallet.WalletView.CancelDelete | src/components/FakeWallet.tsx:243 | the dialog closes |
| FakeWallet.WalletView.HandleClearWallet | src/components/FakeWallet.tsx:82-87 | a confirmed clear removes the store entry and empties the view, which then no longer matches the re-seeding store |
| FakeWallet.WalletView.OpenMintForm | src/components/FakeWallet.tsx:89-92 | the form opens with no record being edited |
| FakeWallet.WalletView.CloseMintForm | src/components/FakeWallet.tsx:223-226 | the form closes and the edit ends |

## Left out

- JSON serialisation. A stored entry is kept as its parsed value. `Corrupt` stands for an entry that cannot be parsed. JSON that parses to something other than a list of records is not modelled.
- `localStorage` failures are one flag per store, `writable`: either every `setItem` succeeds or every one throws. A partly full quota is not modelled. `removeItem` is taken never to fail.
- `Date.now()`, `Math.random().toString(36).substring(2, 8)` and `new Date().toISOString()` are inputs to `AddNFT`. `IsRandomToken` states the form the token takes.
- `new URL(...)` is the function-valued input `isValidUrl`.
- Lengths are counted in Unicode scalar values, not UTF-16 code units. Trimmed texts outside the Basic Multilingual Plane can therefore pass a length rule that the app would count differently.
- Strings.UpperAscii: upper-cases ASCII letters only; other characters are kept as they are.
- `simulateMinting`'s delay is left out; `HandleMintNFT` runs after it.
- The chat request itself is not modelled: `fetch`, headers, the API URL and key, the model name, `temperature` and `max_tokens`. `Response` is its outcome. A reply `content` that is not a string is not modelled.
- Overlapping `sendQuery` calls are not modelled. `Ask` and `Settle` are separate so that typing in between can be modelled, but only one request is in flight at a time.
- `toLocaleDateString`, the `dark` class on the document, `window.confirm` (an input), `console.error`, and all rendering and styling.
- The delete dialog opens only for a non-empty id (`showDeleteConfirm &&`). This and the clear button appearing only for a non-empty list are rendering conditions and are not modelled.
- `App.tsx` and the rest of the repository outside these five files are not part of this model.
