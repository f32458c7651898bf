/**
 * The mint / edit form: three text fields, the per-field error messages shown
 * under them, and the `isMinting` flag that is set while `onMint` runs.
 *
 * URL parsing (`new URL(...)`) is the const `isValidUrl`, fixed when the form
 * is created. `onMint` and `onClose` are callbacks of the wallet: HandleSubmit
 * returns what it handed to `onMint` and whether it called `onClose`, and takes
 * whether `onMint` resolves as an input.
 */
module MintForm {
  import opened Wrappers
  import opened Strings
  import opened LocalStorageUtil

  datatype Field = Name | Description | Image

  datatype FormData = FormData(name: string, description: string, image: string) {
    function Get(f: Field): string {
      match f
      case Name => name
      case Description => description
      case Image => image
    }

    /** `{ ...prev, [field]: value }` */
    function With(f: Field, v: string): (d: FormData)
      ensures d.Get(f) == v
      ensures forall g :: g != f ==> d.Get(g) == Get(g)
    {
      match f
      case Name => this.(name := v)
      case Description => this.(description := v)
      case Image => this.(image := v)
    }
  }

  const EMPTY_FORM: FormData := FormData("", "", "")

  /** The pictures offered as thumbnails under the image field. */
  const SUGGESTED_IMAGES: seq<string> := [
    UnsplashPhoto("1526379095098-d400fd0bf935"),
    UnsplashPhoto("1517077304055-6e89abbf09b0"),
    UnsplashPhoto("1498050108023-c5249f4df085"),
    UnsplashPhoto("1555949963-aa79dcee981c"),
    UnsplashPhoto("1516321318423-f06f85e504b3"),
    UnsplashPhoto("1607706189992-eae578626c86")
  ]

  /** Why a field is rejected. */
  datatype Problem = Required | TooShort | InvalidUrl

  const NAME_REQUIRED := "Badge name is required"
  const NAME_TOO_SHORT := "Badge name must be at least 3 characters"
  const DESCRIPTION_REQUIRED := "Description is required"
  const DESCRIPTION_TOO_SHORT := "Description must be at least 10 characters"
  const IMAGE_REQUIRED := "Image URL is required"
  const INVALID_URL := "Please enter a valid URL"

  /** The message shown under field `f` for `p`. */
  function Message(f: Field, p: Problem): (m: string)
    ensures m != ""
  {
    match f
    case Name => if p == Required then NAME_REQUIRED else NAME_TOO_SHORT
    case Description => if p == Required then DESCRIPTION_REQUIRED else DESCRIPTION_TOO_SHORT
    case Image => if p == Required then IMAGE_REQUIRED else INVALID_URL
  }

  /** The rule for a text field that must hold at least `min` characters once trimmed. */
  function LengthProblem(value: string, min: nat): (p: Option<Problem>)
    requires min > 0
    ensures p == Some(Required) <==> AllWhitespace(value)
    ensures p == Some(TooShort) <==> !AllWhitespace(value) && |Trim(value)| < min
    ensures p == None <==> |Trim(value)| >= min
  {
    TrimEmptyIff(value);
    var t := Trim(value);
    if t == "" then Some(Required) else if |t| < min then Some(TooShort) else None
  }

  /** The image rule: required when blank, invalid when the untrimmed text does
      not parse as a URL. */
  function ImageProblem(image: string, isValidUrl: string -> bool): (p: Option<Problem>)
    ensures p == Some(Required) <==> AllWhitespace(image)
    ensures p == Some(InvalidUrl) <==> !AllWhitespace(image) && !isValidUrl(image)
    ensures p == None <==> !AllWhitespace(image) && isValidUrl(image)
  {
    TrimEmptyIff(image);
    if Trim(image) == "" then Some(Required)
    else if !isValidUrl(image) then Some(InvalidUrl)
    else None
  }

  /** The problem with field `f`: the name needs 3 trimmed characters, the
      description 10, the image a parsable URL. */
  function FieldProblem(d: FormData, f: Field, isValidUrl: string -> bool): (p: Option<Problem>)
    ensures p == Some(Required) <==> AllWhitespace(d.Get(f))
    ensures p == Some(InvalidUrl) ==> f == Image
    ensures p == Some(TooShort) ==> f != Image
  {
    match f
    case Name => LengthProblem(d.name, 3)
    case Description => LengthProblem(d.description, 10)
    case Image => ImageProblem(d.image, isValidUrl)
  }

  /** `newErrors` after the check of field `f`: its message is added when it fails. */
  function Record(errors: map<Field, string>, f: Field, p: Option<Problem>): (r: map<Field, string>)
    ensures r.Keys == errors.Keys + (if p.Some? then {f} else {})
    ensures p.Some? ==> r[f] == Message(f, p.value)
    ensures forall g :: g in errors && g != f ==> r[g] == errors[g]
  {
    if p.Some? then errors[f := Message(f, p.value)] else errors
  }

  /** The outcome of the three field checks, in the order `validateForm` runs them. */
  datatype Checks = Checks(name: Option<Problem>, description: Option<Problem>, image: Option<Problem>) {
    function Of(f: Field): Option<Problem> {
      match f
      case Name => name
      case Description => description
      case Image => image
    }

    /** The record of messages: one entry per failing check, holding its message. */
    function Errors(): (errors: map<Field, string>)
      ensures forall f :: f in errors <==> Of(f).Some?
      ensures forall f :: f in errors ==> errors[f] == Message(f, Of(f).value)
    {
      Record(Record(Record(map[], Name, name), Description, description), Image, image)
    }
  }

  /** Runs the three checks on `d`. */
  function ChecksOf(d: FormData, isValidUrl: string -> bool): (c: Checks)
    ensures forall f :: c.Of(f) == FieldProblem(d, f, isValidUrl)
  {
    Checks(FieldProblem(d, Name, isValidUrl), FieldProblem(d, Description, isValidUrl),
      FieldProblem(d, Image, isValidUrl))
  }

  /** The `newErrors` record `validateForm` builds: one message per failing field. */
  function Validate(d: FormData, isValidUrl: string -> bool): (errors: map<Field, string>)
    ensures forall f :: f in errors <==> FieldProblem(d, f, isValidUrl).Some?
    ensures forall f :: f in errors ==> errors[f] == Message(f, FieldProblem(d, f, isValidUrl).value)
  {
    ChecksOf(d, isValidUrl).Errors()
  }

  /** `validateForm()`'s result: the form is valid iff no field has a message,
      that is iff all three rules pass. */
  lemma ValidateIffRules(d: FormData, isValidUrl: string -> bool)
    ensures Validate(d, isValidUrl) == map[] <==>
      && |Trim(d.name)| >= 3
      && |Trim(d.description)| >= 10
      && !AllWhitespace(d.image) && isValidUrl(d.image)
  {
    var errors := Validate(d, isValidUrl);
    if errors == map[] {
      assert FieldProblem(d, Name, isValidUrl).None? && FieldProblem(d, Description, isValidUrl).None?
        && FieldProblem(d, Image, isValidUrl).None?;
    }
  }

  /** Each field's message depends on that field only: editing one field leaves
      the other fields' messages as they were. */
  lemma FieldRulesIndependent(d: FormData, f: Field, v: string, g: Field, isValidUrl: string -> bool)
    requires g != f
    ensures FieldProblem(d.With(f, v), g, isValidUrl) == FieldProblem(d, g, isValidUrl)
    ensures (g in Validate(d.With(f, v), isValidUrl)) == (g in Validate(d, isValidUrl))
  {
  }

  /** The empty form reports every field as required. */
  lemma EmptyFormErrors(isValidUrl: string -> bool)
    ensures Validate(EMPTY_FORM, isValidUrl)
      == map[Name := Message(Name, Required), Description := Message(Description, Required),
             Image := Message(Image, Required)]
  {
    assert AllWhitespace("");
  }

  /** The form fields of a record being edited, or an empty form. */
  function InitialForm(editing: Option<NFT>): (d: FormData)
    ensures editing.None? ==> d == EMPTY_FORM
    ensures editing.Some? ==> d == FormData(editing.value.name, editing.value.description, editing.value.image)
  {
    match editing
    case Some(n) => FormData(n.name, n.description, n.image)
    case None => EMPTY_FORM
  }

  /** A message is shown under a field when its entry is a non-empty string. */
  predicate Shown(errors: map<Field, string>, f: Field) {
    f in errors && errors[f] != ""
  }

  /** One step of `validateForm`: the message for `f`'s problem, if any, is
      written into `newErrors`. */
  method AddMessage(newErrors: map<Field, string>, f: Field, problem: Option<Problem>)
    returns (updated: map<Field, string>)
    ensures updated == Record(newErrors, f, problem)
  {
    updated := newErrors;
    if problem.Some? {
      updated := updated[f := Message(f, problem.value)];
    }
  }

  class FormState {
    var formData: FormData
    var errors: map<Field, string>
    var isMinting: bool
    const isValidUrl: string -> bool

    /** The form never rests with `isMinting` set: it is true only while `onMint` runs. */
    ghost predicate Valid()
      reads this
    {
      !isMinting
    }

    /** `useState` with the record being edited, if any. */
    constructor (editing: Option<NFT>, isValidUrl: string -> bool)
      ensures Valid()
      ensures formData == InitialForm(editing) && errors == map[] && this.isValidUrl == isValidUrl
    {
      formData := InitialForm(editing);
      errors := map[];
      isMinting := false;
      this.isValidUrl := isValidUrl;
    }

    /** The effect that runs whenever `editingNFT` or `isOpen` changes: the fields are
        refilled from the record being edited, or emptied, and every message is cleared. */
    method ResetForm(editing: Option<NFT>)
      modifies this`formData, this`errors
      ensures formData == InitialForm(editing) && errors == map[]
    {
      match editing {
        case Some(n) => formData := FormData(n.name, n.description, n.image);
        case None => formData := EMPTY_FORM;
      }
      errors := map[];
    }

    /** `validateForm()`: records the messages and reports whether there are none. */
    method ValidateForm() returns (valid: bool)
      modifies this`errors
      ensures errors == Validate(formData, isValidUrl)
      ensures valid <==> errors == map[]
    {
      var checks := ChecksOf(formData, isValidUrl);
      var newErrors: map<Field, string> := map[];
      newErrors := AddMessage(newErrors, Name, checks.name);
      newErrors := AddMessage(newErrors, Description, checks.description);
      newErrors := AddMessage(newErrors, Image, checks.image);
      errors := newErrors;
      valid := |newErrors.Keys| == 0;
    }

    /** `handleSubmit`: on an invalid form nothing is minted; otherwise the data goes
        to `onMint` (whose outcome is `mintSucceeds`), and a successful mint empties
        the form and closes it, while a failed one keeps the data. */
    method HandleSubmit(mintSucceeds: bool) returns (minted: Option<FormData>, closed: bool)
      requires Valid()
      modifies this`formData, this`errors, this`isMinting
      ensures Valid()
      ensures errors == Validate(old(formData), isValidUrl)
      ensures minted.Some? <==> errors == map[]
      ensures minted.Some? ==> minted.value == old(formData)
      ensures closed <==> minted.Some? && mintSucceeds
      ensures formData == if closed then EMPTY_FORM else old(formData)
    {
      minted, closed := None, false;
      var valid := ValidateForm();
      if !valid {
        return;
      }
      isMinting := true;
      minted := Some(formData);
      if mintSucceeds {
        formData := EMPTY_FORM;
        closed := true;
      }
      isMinting := false;
    }

    /** `handleInputChange(field, value)`: only that field changes, and only its
        message is cleared (set to the empty string) when one is shown. */
    method HandleInputChange(f: Field, value: string)
      modifies this`formData, this`errors
      ensures formData == old(formData).With(f, value)
      ensures errors == if Shown(old(errors), f) then old(errors)[f := ""] else old(errors)
      ensures !Shown(errors, f)
      ensures forall g :: g != f ==> (g in errors <==> g in old(errors)) && (g in errors ==> errors[g] == old(errors)[g])
    {
      formData := formData.With(f, value);
      if f in errors && errors[f] != "" {
        errors := errors[f := ""];
      }
    }

    /** `selectSuggestedImage(url)`, called from the thumbnail of one of the
        suggested images. */
    method SelectSuggestedImage(url: string)
      requires url in SUGGESTED_IMAGES
      modifies this`formData, this`errors
      ensures formData == old(formData).(image := url)
      ensures errors == if Shown(old(errors), Image) then old(errors)[Image := ""] else old(errors)
    {
      HandleInputChange(Image, url);
    }
  }
}
