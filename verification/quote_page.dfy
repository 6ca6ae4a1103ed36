/** The quote request page (app/bao-gia/page.tsx): the attached images, the
    product-type label, and the parts of the e-mail it opens. */
module QuotePage {
  import opened Wrappers
  import opened Seqs
  import opened Text

  /** An attached image: file name, data URL and size in bytes. */
  datatype Image = Image(name: string, data: string, size: nat)

  /** Newly picked images go after those already attached, in order. */
  function AddImages(prev: seq<Image>, picked: seq<Image>): (r: seq<Image>)
    ensures |r| == |prev| + |picked|
    ensures r[..|prev|] == prev && r[|prev|..] == picked
  {
    prev + picked
  }

  predicate NotNamed(img: Image, name: string) { img.name != name }

  /** `handleRemoveImage(name)`: drops every image with that name; the others
      stay, in order and as often as they were. */
  function RemoveImage(images: seq<Image>, name: string): (r: seq<Image>)
    ensures forall i :: 0 <= i < |r| ==> r[i].name != name
    ensures IsSubsequence(r, images)
    ensures forall img: Image :: img.name != name ==> multiset(r)[img] == multiset(images)[img]
  {
    var keep := (img: Image) => NotNamed(img, name);
    FilterFacts(images, keep);
    Filter(images, keep)
  }

  /** Removing a name no image carries changes nothing. */
  lemma RemoveAbsentName(images: seq<Image>, name: string)
    requires forall i :: 0 <= i < |images| ==> images[i].name != name
    ensures RemoveImage(images, name) == images
  {
    FilterAllKept(images, (img: Image) => NotNamed(img, name));
  }

  /** The product types the form offers, with their display names. */
  const Codes := ["cong-nhom-duc", "hang-rao-nhom-duc", "cong-va-hang-rao", "khac"]
  const Labels := ["Cổng nhôm đúc", "Hàng rào nhôm đúc", "Cổng và hàng rào", "Khác"]

  /** `getProductTypeLabel`: the display name of a known code; any other
      value is shown as it is. */
  function ProductTypeLabel(value: string): (r: string)
    ensures forall k :: 0 <= k < |Codes| && value == Codes[k] ==> r == Labels[k]
    ensures value !in Codes ==> r == value
  {
    if value == Codes[0] then Labels[0]
    else if value == Codes[1] then Labels[1]
    else if value == Codes[2] then Labels[2]
    else if value == Codes[3] then Labels[3]
    else value
  }

  /** No label is a code, so the value comes back unchanged exactly when it
      is not a known code; and every known code gets its own label. */
  lemma LabelChangesExactlyCodes(value: string, other: string)
    ensures ProductTypeLabel(value) == value <==> value !in Codes
    ensures value in Codes && other in Codes && value != other ==>
              ProductTypeLabel(value) != ProductTypeLabel(other)
  {
  }

  const DefaultRecipient := "info@congnhomduc.com"

  /** `settings.email || 'info@congnhomduc.com'`. */
  function Recipient(settingsEmail: string): (r: string)
    ensures r != ""
    ensures settingsEmail != "" ==> r == settingsEmail
    ensures settingsEmail == "" ==> r == DefaultRecipient
  {
    if settingsEmail != "" then settingsEmail else DefaultRecipient
  }

  const SubjectPrefix := "Yêu cầu báo giá - "

  function Subject(customer: string): (r: string)
    ensures StartsWith(r, SubjectPrefix) && r[|SubjectPrefix|..] == customer
  {
    SubjectPrefix + customer
  }

  /** `Math.round(size / 1024)`: the size in KB, halves rounded up. */
  function KiB(size: nat): (r: nat)
    ensures 2 * r * 1024 <= 2 * size + 1024
    ensures 2 * size + 1024 < 2 * r * 1024 + 2048
  {
    (size + 512) / 1024
  }

  const NoImagesText := "Chưa đính kèm ảnh."

  /** The line listing one image. */
  function ImageLine(img: Image): (r: string)
    ensures '\n' !in img.name ==> '\n' !in r
  {
    var d := Decimal(KiB(img.size));
    NotInDigits(d, '\n');
    assert '\n' !in LineEnd;
    "- " + img.name + " (" + d + LineEnd
  }

  const LineEnd := " KB): vui lòng đính kèm ảnh này trong email."

  function ImageLines(images: seq<Image>): (r: seq<string>)
    ensures |r| == |images|
    ensures forall i :: 0 <= i < |r| ==> r[i] == ImageLine(images[i])
  {
    seq(|images|, i requires 0 <= i < |images| => ImageLine(images[i]))
  }

  function ImagesHeader(n: nat): (r: string)
    ensures '\n' !in r
  {
    "Ảnh tham khảo (" + Decimal(n) + "):"
  }

  /** `imagesText`: a fixed sentence when nothing is attached; otherwise a
      header with the count, one line per image, and a final newline. */
  function ImagesText(images: seq<Image>): (r: string)
    ensures |images| == 0 ==> r == NoImagesText
    ensures |images| > 0 ==> StartsWith(r, ImagesHeader(|images|)) && r[|r| - 1] == '\n'
  {
    if |images| == 0 then NoImagesText
    else ImagesHeader(|images|) + "\n" + Join(ImageLines(images), "\n") + "\n"
  }

  /** Read line by line, the text is the header, then exactly one line per
      image in order, then nothing after the last newline. */
  lemma ImagesTextLines(images: seq<Image>)
    requires |images| > 0
    requires forall i :: 0 <= i < |images| ==> '\n' !in images[i].name
    ensures Split(ImagesText(images), '\n') ==
            [ImagesHeader(|images|)] + ImageLines(images) + [""]
  {
    var lines := ImageLines(images);
    var all := lines + [""];
    var header := ImagesHeader(|images|);
    var body := Join(all, "\n");
    JoinSnoc(lines, "", "\n");
    assert body == Join(lines, "\n") + "\n" + "";
    assert ImagesText(images) == header + "\n" + body;
    SplitAtFirstSeparator(header, body, '\n');
    forall k | 0 <= k < |all| ensures '\n' !in all[k] {
      if k < |lines| {
        assert all[k] == ImageLine(images[k]);
      }
    }
    SplitOfJoinPlain(all, '\n');
  }

  /** The customer's e-mail is copied in exactly when they gave one. */
  function Cc(customerEmail: string): (r: Option<string>)
    ensures r.Some? <==> customerEmail != ""
    ensures r.Some? ==> r.value == customerEmail
  {
    if customerEmail != "" then Some(customerEmail) else None
  }
}
