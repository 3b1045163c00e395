/** The customer's "Add Property" form (AddProperty.jsx): the trimming step,
    the client-side validator and the image-list editing it runs on. The
    submission itself (an HTTP POST) is not part of the model. */
module AddPropertyForm {
  import opened Wrappers
  import opened Seqs
  import opened Text
  import opened Js

  /** The form's text inputs, as typed. */
  datatype PropertyForm = PropertyForm(
    title: string,
    description: string,
    price: string,
    areaSqft: string,
    propertyType: string,
    addressLine: string,
    city: string,
    state: string,
    pincode: string)

  /** One row of the image list; `imageUrl` may be missing. */
  datatype ImageField = ImageField(imageUrl: Option<string>, isPrimary: bool)

  const EmptyForm: PropertyForm := PropertyForm("", "", "", "", "", "", "", "", "")

  /** A fresh image row: no URL, not primary. */
  const BlankImage: ImageField := ImageField(Some(""), false)

  /** The image list a fresh form starts with: one empty row, marked primary. */
  const InitialImages: seq<ImageField> := [ImageField(Some(""), true)]

  /** The trimming step: title, description, address line, city, state and
      pincode are trimmed; price, area and property type are kept as typed. */
  function Trimmed(p: PropertyForm): PropertyForm {
    p.(title := Trim(p.title), description := Trim(p.description),
       addressLine := Trim(p.addressLine), city := Trim(p.city),
       state := Trim(p.state), pincode := Trim(p.pincode))
  }

  /** Trimming a trimmed form changes nothing, and the three untrimmed inputs
      pass through as typed. */
  lemma TrimmedIsStable(p: PropertyForm)
    ensures Trimmed(Trimmed(p)) == Trimmed(p)
    ensures Trimmed(p).price == p.price && Trimmed(p).areaSqft == p.areaSqft
    ensures Trimmed(p).propertyType == p.propertyType
    ensures IsJsBlank(p.city) <==> Trimmed(p).city == ""
  {
    TrimIdempotent(p.title);
    TrimIdempotent(p.description);
    TrimIdempotent(p.addressLine);
    TrimIdempotent(p.city);
    TrimIdempotent(p.state);
    TrimIdempotent(p.pincode);
  }

  /* ---------- The URL scheme rule ---------- */

  predicate IsSchemeChar(c: char) {
    IsAsciiLetter(c) || IsAsciiDigit(c) || c == '+' || c == '-' || c == '.'
  }

  /** A URL scheme: an ASCII letter, then letters, digits, '+', '-' or '.'. */
  predicate IsScheme(s: string) {
    |s| > 0 && IsAsciiLetter(s[0]) && forall i | 1 <= i < |s| :: IsSchemeChar(s[i])
  }

  predicate IsColon(c: char) {
    c == ':'
  }

  /** The lower-cased scheme the URL parser reads: the text before the first
      ':', when that text is a scheme; `None` when the parser would reject the
      input for want of one. */
  function UrlScheme(url: string): Option<string> {
    match FirstIndex(IsColon, url)
    case None => None
    case Some(k) => if IsScheme(url[..k]) then Some(ToLowerAscii(url[..k])) else None
  }

  /** `isValidUrl`: the parsed protocol is "http:" or "https:". */
  predicate IsValidUrl(url: string) {
    UrlScheme(url) == Some("http") || UrlScheme(url) == Some("https")
  }

  /** `UrlScheme(url) == Some(scheme)` for a lower-case letter-only scheme is
      the same as the lower-cased URL starting with the scheme and a colon. */
  lemma SchemeByPrefix(url: string, scheme: string)
    requires |scheme| > 0 && forall i | 0 <= i < |scheme| :: 'a' <= scheme[i] <= 'z'
    ensures UrlScheme(url) == Some(scheme) <==> StartsWith(ToLowerAscii(url), scheme + ":")
  {
    var lower := ToLowerAscii(url);
    var k := |scheme|;
    if StartsWith(lower, scheme + ":") {
      assert lower[k] == (scheme + ":")[k] == ':';
      assert url[k] == ':';
      forall j | 0 <= j < k ensures !IsColon(url[j]) && IsAsciiLetter(url[j]) {
        assert lower[j] == (scheme + ":")[j] == scheme[j];
      }
      assert FirstIndex(IsColon, url) == Some(k);
      ToLowerAsciiPrefix(url, k);
      assert lower[..k] == (scheme + ":")[..k] == scheme;
    }
    if UrlScheme(url) == Some(scheme) {
      var j := FirstIndex(IsColon, url).value;
      assert ToLowerAscii(url[..j]) == scheme;
      assert j == k;
      ToLowerAsciiPrefix(url, k);
      assert lower[..k + 1] == lower[..k] + [lower[k]];
    }
  }

  /** The scheme rule stated on the text itself: a URL is acceptable exactly
      when, ignoring ASCII case, it starts with "http:" or "https:". */
  lemma ValidUrlByPrefix(url: string)
    ensures IsValidUrl(url) <==>
              StartsWith(ToLowerAscii(url), "http:") || StartsWith(ToLowerAscii(url), "https:")
  {
    SchemeByPrefix(url, "http");
    SchemeByPrefix(url, "https");
  }

  /* ---------- Validation ---------- */

  /** What the error message under a field key says. */
  datatype Problem = Required | TooShort | NotPositive | NotSixDigits | NotHttpUrl | NotExactlyOnePrimary

  /** The error object `validateAll` builds, one slot per key it can write:
      `None` where the object has no entry. `imageUrls[i]` is the entry under
      `imageUrl_i`. */
  datatype FieldErrors = FieldErrors(
    title: Option<Problem>,
    propertyType: Option<Problem>,
    description: Option<Problem>,
    price: Option<Problem>,
    areaSqft: Option<Problem>,
    addressLine: Option<Problem>,
    city: Option<Problem>,
    state: Option<Problem>,
    pincode: Option<Problem>,
    images: Option<Problem>,
    imageUrls: seq<Option<Problem>>,
    primaryImage: Option<Problem>)

  /** No entry under any text-field key. */
  predicate TextSlotsEmpty(e: FieldErrors) {
    && e.title.None? && e.propertyType.None? && e.description.None?
    && e.price.None? && e.areaSqft.None?
    && e.addressLine.None? && e.city.None? && e.state.None? && e.pincode.None?
  }

  /** No entry under any image key. */
  predicate ImageSlotsEmpty(e: FieldErrors) {
    && e.images.None? && e.primaryImage.None?
    && forall i | 0 <= i < |e.imageUrls| :: e.imageUrls[i].None?
  }

  /** `Object.keys(errors).length === 0`. */
  predicate NoErrors(e: FieldErrors) {
    TextSlotsEmpty(e) && ImageSlotsEmpty(e)
  }

  /** `(img.imageUrl || "")`. */
  function UrlText(img: ImageField): string {
    if img.imageUrl.Some? then img.imageUrl.value else ""
  }

  /** `(img.imageUrl || "").trim().length > 0`: the URL is not blank (see
      `HasUrlAfterTrim`). */
  predicate HasUrl(img: ImageField) {
    !IsJsBlank(UrlText(img))
  }

  lemma HasUrlAfterTrim(img: ImageField)
    ensures HasUrl(img) <==> Utf16Length(Trim(UrlText(img))) > 0
  {
  }

  predicate BadUrl(img: ImageField) {
    HasUrl(img) && !IsValidUrl(Trim(UrlText(img)))
  }

  predicate IsPrimaryField(img: ImageField) {
    img.isPrimary
  }

  function PrimaryCount(images: seq<ImageField>): nat {
    Count(IsPrimaryField, images)
  }

  /** A price or area text that is present and a number above zero. */
  predicate IsPositiveNumber(text: string, toNumber: string -> JsNumber) {
    text != "" && toNumber(text).Num? && toNumber(text).value > 0.0
  }

  function LengthCheck(text: string, minLength: nat): Option<Problem> {
    if text == "" then Some(Required) else if Utf16Length(text) < minLength then Some(TooShort) else None
  }

  function RequiredCheck(text: string): Option<Problem> {
    if text == "" then Some(Required) else None
  }

  function NumberCheck(text: string, toNumber: string -> JsNumber): Option<Problem> {
    if text == "" then Some(Required)
    else if toNumber(text).NaN? || toNumber(text).value <= 0.0 then Some(NotPositive)
    else None
  }

  function PincodeCheck(text: string): Option<Problem> {
    if text == "" then Some(Required)
    else if |text| == 6 && AllAsciiDigits(text) then None
    else Some(NotSixDigits)
  }

  function UrlCheck(img: ImageField): Option<Problem> {
    if BadUrl(img) then Some(NotHttpUrl) else None
  }

  function ImagesCheck(images: seq<ImageField>): (p: Option<Problem>)
    ensures p.Some? <==> forall i | 0 <= i < |images| :: !HasUrl(images[i])
  {
    if FirstIndex(HasUrl, images).None? then Some(Required) else None
  }

  function UrlChecks(images: seq<ImageField>): (r: seq<Option<Problem>>)
    ensures |r| == |images|
    ensures forall i | 0 <= i < |images| :: r[i].Some? <==> BadUrl(images[i])
  {
    seq(|images|, i requires 0 <= i < |images| => UrlCheck(images[i]))
  }

  function PrimaryCheck(images: seq<ImageField>): Option<Problem> {
    if |images| > 0 && PrimaryCount(images) != 1 then Some(NotExactlyOnePrimary) else None
  }

  /** The checks `validateAll` runs (AddProperty.jsx:102-155), on a form `t`
      that has already been through the trimming step. `toNumber` is
      JavaScript's `Number()`. */
  function Check(t: PropertyForm, images: seq<ImageField>, toNumber: string -> JsNumber): (e: FieldErrors)
    ensures e.images.Some? <==> forall i | 0 <= i < |images| :: !HasUrl(images[i])
    ensures |e.imageUrls| == |images|
    ensures forall i | 0 <= i < |images| :: e.imageUrls[i].Some? <==> BadUrl(images[i])
    ensures e.primaryImage.Some? <==> |images| > 0 && PrimaryCount(images) != 1
  {
    FieldErrors(
      LengthCheck(t.title, 3),
      RequiredCheck(t.propertyType),
      LengthCheck(t.description, 10),
      NumberCheck(t.price, toNumber),
      NumberCheck(t.areaSqft, toNumber),
      RequiredCheck(t.addressLine),
      RequiredCheck(t.city),
      RequiredCheck(t.state),
      PincodeCheck(t.pincode),
      ImagesCheck(images),
      UrlChecks(images),
      PrimaryCheck(images))
  }

  /** `validateAll`'s error object: the checks on the trimmed form. */
  function Validate(form: PropertyForm, images: seq<ImageField>, toNumber: string -> JsNumber): FieldErrors {
    Check(Trimmed(form), images, toNumber)
  }

  /** `Validate` field by field, on the trimmed form. */
  lemma ValidateByField(form: PropertyForm, images: seq<ImageField>, toNumber: string -> JsNumber)
    ensures var e := Validate(form, images, toNumber);
      var t := Trimmed(form);
      && e.title == LengthCheck(t.title, 3)
      && e.propertyType == RequiredCheck(t.propertyType)
      && e.description == LengthCheck(t.description, 10)
      && e.price == NumberCheck(t.price, toNumber)
      && e.areaSqft == NumberCheck(t.areaSqft, toNumber)
      && e.addressLine == RequiredCheck(t.addressLine)
      && e.city == RequiredCheck(t.city)
      && e.state == RequiredCheck(t.state)
      && e.pincode == PincodeCheck(t.pincode)
      && e.images == ImagesCheck(images) && e.imageUrls == UrlChecks(images)
      && e.primaryImage == PrimaryCheck(images)
      && t.price == form.price && t.areaSqft == form.areaSqft && t.propertyType == form.propertyType
  {
  }

  /** A trimmed text fails the length check exactly when it is shorter than
      the minimum, and is reported missing exactly when it was blank. */
  lemma LengthCheckMeaning(text: string, minLength: nat)
    requires minLength > 0
    ensures LengthCheck(Trim(text), minLength).Some? <==> Utf16Length(Trim(text)) < minLength
    ensures LengthCheck(Trim(text), minLength) == Some(Required) <==> IsJsBlank(text)
  {
  }

  lemma NumberCheckMeaning(text: string, toNumber: string -> JsNumber)
    ensures NumberCheck(text, toNumber).Some? <==> !IsPositiveNumber(text, toNumber)
  {
  }

  /** The text checks pass exactly on the texts a submittable form has. */
  lemma ChecksPass(text: string, toNumber: string -> JsNumber, minLength: nat)
    requires minLength > 0
    ensures LengthCheck(text, minLength).None? <==> Utf16Length(text) >= minLength
    ensures RequiredCheck(text).None? <==> text != ""
    ensures NumberCheck(text, toNumber).None? <==> IsPositiveNumber(text, toNumber)
    ensures PincodeCheck(text).None? <==> |text| == 6 && AllAsciiDigits(text)
  {
  }

  /** Title and description: missing after trimming, or shorter than 3 and
      10 UTF-16 units. */
  lemma LengthFieldErrors(form: PropertyForm, images: seq<ImageField>, toNumber: string -> JsNumber)
    ensures var e := Validate(form, images, toNumber);
      && (e.title.Some? <==> Utf16Length(Trim(form.title)) < 3)
      && (e.title == Some(Required) <==> IsJsBlank(form.title))
      && (e.description.Some? <==> Utf16Length(Trim(form.description)) < 10)
      && (e.description == Some(Required) <==> IsJsBlank(form.description))
  {
    var e := Validate(form, images, toNumber);
    assert e.title == LengthCheck(Trim(form.title), 3);
    assert e.description == LengthCheck(Trim(form.description), 10);
    LengthCheckMeaning(form.title, 3);
    LengthCheckMeaning(form.description, 10);
  }

  /** Property type, address line, city and state must be present; all but
      the property type are trimmed first. */
  lemma RequiredFieldErrors(form: PropertyForm, images: seq<ImageField>, toNumber: string -> JsNumber)
    ensures var e := Validate(form, images, toNumber);
      && (e.propertyType.Some? <==> form.propertyType == "")
      && (e.addressLine.Some? <==> IsJsBlank(form.addressLine))
      && (e.city.Some? <==> IsJsBlank(form.city))
      && (e.state.Some? <==> IsJsBlank(form.state))
  {
    var e := Validate(form, images, toNumber);
    assert e.propertyType == RequiredCheck(form.propertyType);
    assert e.addressLine == RequiredCheck(Trim(form.addressLine));
    assert e.city == RequiredCheck(Trim(form.city));
    assert e.state == RequiredCheck(Trim(form.state));
  }

  /** Price and area must be numbers above zero; the pincode must be six
      ASCII digits once trimmed. */
  lemma NumberFieldErrors(form: PropertyForm, images: seq<ImageField>, toNumber: string -> JsNumber)
    ensures var e := Validate(form, images, toNumber);
      && (e.price.Some? <==> !IsPositiveNumber(form.price, toNumber))
      && (e.areaSqft.Some? <==> !IsPositiveNumber(form.areaSqft, toNumber))
      && (e.pincode.None? <==> |Trim(form.pincode)| == 6 && AllAsciiDigits(Trim(form.pincode)))
  {
    ValidateByField(form, images, toNumber);
    NumberCheckMeaning(form.price, toNumber);
    NumberCheckMeaning(form.areaSqft, toNumber);
  }

  /** `validateAll`'s verdict. */
  predicate ValidateAll(form: PropertyForm, images: seq<ImageField>, toNumber: string -> JsNumber) {
    NoErrors(Validate(form, images, toNumber))
  }

  /** The text inputs of a submittable form, once trimmed. */
  predicate AcceptableTexts(t: PropertyForm, toNumber: string -> JsNumber) {
    && Utf16Length(t.title) >= 3
    && t.propertyType != ""
    && Utf16Length(t.description) >= 10
    && IsPositiveNumber(t.price, toNumber)
    && IsPositiveNumber(t.areaSqft, toNumber)
    && t.addressLine != "" && t.city != "" && t.state != ""
    && |t.pincode| == 6 && AllAsciiDigits(t.pincode)
  }

  /** The image list of a submittable form: some URL, every URL http(s),
      exactly one primary row. */
  predicate AcceptableImages(images: seq<ImageField>) {
    && (exists i | 0 <= i < |images| :: HasUrl(images[i]))
    && (forall i | 0 <= i < |images| :: !BadUrl(images[i]))
    && PrimaryCount(images) == 1
  }

  /** What a submittable form is, stated field by field. */
  predicate AcceptableForm(form: PropertyForm, images: seq<ImageField>, toNumber: string -> JsNumber) {
    AcceptableTexts(Trimmed(form), toNumber) && AcceptableImages(images)
  }

  lemma TextSlotsExactly(form: PropertyForm, images: seq<ImageField>, toNumber: string -> JsNumber)
    ensures TextSlotsEmpty(Validate(form, images, toNumber)) <==> AcceptableTexts(Trimmed(form), toNumber)
  {
    var t := Trimmed(form);
    ValidateByField(form, images, toNumber);
    ChecksPass(t.title, toNumber, 3);
    ChecksPass(t.description, toNumber, 10);
    ChecksPass(t.price, toNumber, 1);
    ChecksPass(t.areaSqft, toNumber, 1);
    ChecksPass(t.pincode, toNumber, 1);
  }

  lemma ImageChecksExactly(images: seq<ImageField>)
    ensures (&& ImagesCheck(images).None? && PrimaryCheck(images).None?
             && forall i | 0 <= i < |images| :: UrlChecks(images)[i].None?)
            <==> AcceptableImages(images)
  {
    var r := UrlChecks(images);
    if ImagesCheck(images).None? {
      assert |images| > 0;
    }
  }

  lemma ImageSlotsExactly(t: PropertyForm, images: seq<ImageField>, toNumber: string -> JsNumber)
    ensures ImageSlotsEmpty(Check(t, images, toNumber)) <==> AcceptableImages(images)
  {
    ImageChecksExactly(images);
  }

  /** Validation succeeds exactly for the acceptable forms. */
  lemma ValidateAllExactly(form: PropertyForm, images: seq<ImageField>, toNumber: string -> JsNumber)
    ensures ValidateAll(form, images, toNumber) <==> AcceptableForm(form, images, toNumber)
  {
    TextSlotsExactly(form, images, toNumber);
    ImageSlotsExactly(Trimmed(form), images, toNumber);
  }

  /* ---------- Editing the image list ---------- */

  /** `setPrimary(index)`: image `index` becomes the only primary one. */
  function SetPrimary(images: seq<ImageField>, index: int): (r: seq<ImageField>)
    ensures |r| == |images|
    ensures forall i | 0 <= i < |r| :: r[i].imageUrl == images[i].imageUrl
    ensures forall i | 0 <= i < |r| :: r[i].isPrimary <==> i == index
  {
    seq(|images|, i requires 0 <= i < |images| => images[i].(isPrimary := i == index))
  }

  /** After `setPrimary` with an index in the list, exactly one image is
      primary and the primary-image error cannot arise. */
  lemma SetPrimaryLeavesOnePrimary(t: PropertyForm, images: seq<ImageField>, index: int, toNumber: string -> JsNumber)
    requires 0 <= index < |images|
    ensures PrimaryCount(SetPrimary(images, index)) == 1
    ensures Check(t, SetPrimary(images, index), toNumber).primaryImage.None?
  {
    CountSingle(IsPrimaryField, SetPrimary(images, index), index);
  }

  /** `addImageField`: a blank, non-primary row at the end. */
  function AddImageField(images: seq<ImageField>): (r: seq<ImageField>)
    ensures |r| == |images| + 1 && forall i | 0 <= i < |images| :: r[i] == images[i]
    ensures r[|images|] == BlankImage
  {
    images + [BlankImage]
  }

  /** Adding a row keeps the primary count. */
  lemma AddImageFieldKeepsPrimaryCount(images: seq<ImageField>)
    ensures PrimaryCount(AddImageField(images)) == PrimaryCount(images)
  {
    CountAppend(IsPrimaryField, images, [BlankImage]);
  }

  lemma BlankHasNoUrl()
    ensures !HasUrl(BlankImage) && !BadUrl(BlankImage) && UrlCheck(BlankImage).None?
  {
  }

  /** The new blank row supplies no URL ... */
  lemma AddImageFieldKeepsUrlPresence(images: seq<ImageField>)
    ensures (exists i | 0 <= i < |AddImageField(images)| :: HasUrl(AddImageField(images)[i]))
            <==> (exists i | 0 <= i < |images| :: HasUrl(images[i]))
  {
    var more := AddImageField(images);
    BlankHasNoUrl();
    assert more[|images|] == BlankImage;
    assert forall i | 0 <= i < |images| :: more[i] == images[i];
    if exists i | 0 <= i < |more| :: HasUrl(more[i]) {
      var i :| 0 <= i < |more| && HasUrl(more[i]);
      assert i < |images|;
    }
  }

  /** ... and has no bad one. */
  lemma AddImageFieldKeepsUrlValidity(images: seq<ImageField>)
    ensures (forall i | 0 <= i < |AddImageField(images)| :: !BadUrl(AddImageField(images)[i]))
            <==> (forall i | 0 <= i < |images| :: !BadUrl(images[i]))
  {
    var more := AddImageField(images);
    BlankHasNoUrl();
    assert more[|images|] == BlankImage;
    assert forall i | 0 <= i < |images| :: more[i] == images[i];
  }

  lemma AddImageFieldUrlChecks(images: seq<ImageField>)
    ensures UrlChecks(AddImageField(images)) == UrlChecks(images) + [None]
  {
    var more := AddImageField(images);
    BlankHasNoUrl();
    var before := UrlChecks(images);
    var after := UrlChecks(more);
    forall i | 0 <= i < |after| ensures after[i] == (before + [None])[i] {
      if i < |images| {
        assert more[i] == images[i];
        assert after[i] == UrlCheck(images[i]);
      } else {
        assert more[i] == BlankImage;
      }
    }
  }

  /** Adding a row to a non-empty list changes no entry of the error object;
      it only brings an empty slot for the new row. */
  lemma AddImageFieldAddsEmptySlot(t: PropertyForm, images: seq<ImageField>, toNumber: string -> JsNumber)
    requires |images| > 0
    ensures Check(t, AddImageField(images), toNumber)
            == Check(t, images, toNumber).(imageUrls := Check(t, images, toNumber).imageUrls + [None])
  {
    AddImageFieldKeepsPrimaryCount(images);
    AddImageFieldKeepsUrlPresence(images);
    AddImageFieldKeepsUrlValidity(images);
    AddImageFieldUrlChecks(images);
    assert ImagesCheck(AddImageField(images)) == ImagesCheck(images);
  }

  /** Adding a row never changes whether the image list is acceptable. */
  lemma AddImageFieldKeepsVerdict(images: seq<ImageField>)
    ensures AcceptableImages(AddImageField(images)) <==> AcceptableImages(images)
  {
    AddImageFieldKeepsPrimaryCount(images);
    AddImageFieldKeepsUrlPresence(images);
    AddImageFieldKeepsUrlValidity(images);
  }

  /** On the empty list the images error stands before and after; a
      primary-image error appears only once a row exists. */
  lemma AddImageFieldToEmptyList(t: PropertyForm, toNumber: string -> JsNumber)
    ensures Check(t, [], toNumber).images.Some?
    ensures Check(t, [], toNumber).primaryImage.None?
    ensures Check(t, AddImageField([]), toNumber).images.Some?
    ensures Check(t, AddImageField([]), toNumber).primaryImage.Some?
  {
    assert AddImageField([]) == [BlankImage];
    BlankHasNoUrl();
    CountZero(IsPrimaryField, AddImageField([]));
  }

  /** A fresh form fails validation on every required field and on the image
      list, but not on the primary flag. */
  lemma FreshFormErrors(toNumber: string -> JsNumber)
    ensures var e := Validate(EmptyForm, InitialImages, toNumber);
            && e.title == Some(Required) && e.city == Some(Required) && e.pincode == Some(Required)
            && e.images.Some? && e.primaryImage.None? && e.imageUrls == [None]
  {
    CountSingle(IsPrimaryField, InitialImages, 0);
    assert !HasUrl(InitialImages[0]);
  }
}
