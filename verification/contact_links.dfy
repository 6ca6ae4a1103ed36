/** The contact details the header, the footer and the contact page derive
    from the settings, each with the same fallbacks: a dialable phone number,
    zalo links, the address, and the working-hours lines. */
module ContactLinks {
  import opened Wrappers
  import opened Text
  import SettingsApi

  const DefaultDigits := "0123456789"
  const DefaultPhoneText := "0123.456.789"
  const DefaultEmail := "info@congnhomduc.com"
  const DefaultAddress := "123 Đường ABC, Quận XYZ, TP.HCM"
  const ZaloBase := "https://zalo.me/"

  const DefaultWeekdays := "Thứ 2 - Thứ 6: 8:00 - 17:30"
  const DefaultSaturday := "Thứ 7: 8:00 - 12:00"
  const DefaultSunday := "Chủ nhật: Nghỉ"

  /** Truthy text, or `fallback`. */
  function Or(x: string, fallback: string): (r: string)
    ensures x != "" ==> r == x
    ensures x == "" ==> r == fallback
  {
    if x != "" then x else fallback
  }

  /** `(phone || '0123456789').replace(/\D/g, '') || '0123456789'`: the
      digits of the configured phone, or the default number when it has
      none. */
  function PhoneNumber(phone: string): (r: string)
    ensures AllDigits(r) && r != ""
    ensures Digits(phone) != "" ==> r == Digits(phone)
    ensures Digits(phone) == "" ==> r == DefaultDigits
  {
    DefaultDigitsAreDigits();
    Or(Digits(Or(phone, DefaultDigits)), DefaultDigits)
  }

  lemma DefaultDigitsAreDigits()
    ensures AllDigits(DefaultDigits) && Digits(DefaultDigits) == DefaultDigits
  {
    assert AllDigits(DefaultDigits);
    DigitsOfDigits(DefaultDigits);
  }

  /** A number that is already all digits is dialled as it is, so deriving
      the number twice changes nothing. */
  lemma PhoneNumberOfDigits(phone: string)
    ensures AllDigits(phone) && phone != "" ==> PhoneNumber(phone) == phone
    ensures PhoneNumber(PhoneNumber(phone)) == PhoneNumber(phone)
  {
    if AllDigits(phone) {
      DigitsOfDigits(phone);
    }
    DigitsOfDigits(PhoneNumber(phone));
  }

  /** `https://zalo.me/${phoneNumber}`. */
  function ZaloLink(phone: string): (r: string)
    ensures StartsWith(r, ZaloBase) && r[|ZaloBase|..] == PhoneNumber(phone)
  {
    ZaloBase + PhoneNumber(phone)
  }

  /** The `contactInfo.zalo` link rule: a value starting with 'http' is
      used as it is; anything else is read as a phone number and only its
      digits go after the zalo.me address. */
  function ZaloHref(zalo: string): (r: string)
    ensures StartsWith(zalo, "http") ==> r == zalo
    ensures !StartsWith(zalo, "http") ==> StartsWith(r, ZaloBase) && r[|ZaloBase|..] == Digits(zalo)
    ensures StartsWith(r, "http")
  {
    if StartsWith(zalo, "http") then zalo else ZaloBase + Digits(zalo)
  }

  /** A link the rule built is kept as it is when fed back to the rule. */
  lemma ZaloHrefIdempotent(zalo: string)
    ensures ZaloHref(ZaloHref(zalo)) == ZaloHref(zalo)
  {
  }

  /** The links one listed phone gets: `tel:` and zalo.me, both with only the
      number's digits, and the number shown as typed. */
  datatype PhoneEntry = PhoneEntry(tel: string, zalo: string, shown: string, caption: string)

  function PhoneEntryOf(p: SettingsApi.Phone): (r: PhoneEntry)
    ensures StartsWith(r.tel, "tel:") && r.tel[4..] == Digits(p.number)
    ensures StartsWith(r.zalo, ZaloBase) && r.zalo[|ZaloBase|..] == Digits(p.number)
    ensures r.shown == p.number && r.caption == p.caption
  {
    var digits := Digits(p.number);
    PhoneEntry("tel:" + digits, ZaloBase + digits, p.number, p.caption)
  }

  function PhoneEntries(ps: seq<SettingsApi.Phone>): (r: seq<PhoneEntry>)
    ensures |r| == |ps|
    ensures forall i :: 0 <= i < |r| ==> r[i] == PhoneEntryOf(ps[i])
  {
    seq(|ps|, i requires 0 <= i < |ps| => PhoneEntryOf(ps[i]))
  }

  /** The badge of a listed address: 'factory' is the factory, anything else
      a showroom. */
  function Badge(kind: string): (r: string)
    ensures kind == "factory" <==> r == "🏭 Nhà máy"
    ensures kind != "factory" <==> r == "🏪 Showroom"
  {
    if kind == "factory" then "🏭 Nhà máy" else "🏪 Showroom"
  }

  datatype AddressEntry = AddressEntry(badge: string, caption: string, text: string)

  function AddressEntries(xs: seq<SettingsApi.Address>): (r: seq<AddressEntry>)
    ensures |r| == |xs|
    ensures forall i :: 0 <= i < |r| ==>
              r[i] == AddressEntry(Badge(xs[i].kind), xs[i].caption, xs[i].address)
  {
    seq(|xs|, i requires 0 <= i < |xs| => AddressEntry(Badge(xs[i].kind), xs[i].caption, xs[i].address))
  }

  /** Every address a route-normalised settings record lists gets the badge
      its type names. */
  lemma NormalizedBadges(xs: seq<SettingsApi.Address>)
    requires forall i :: 0 <= i < |xs| ==> SettingsApi.IsAddressKind(xs[i].kind)
    ensures forall i :: 0 <= i < |xs| ==>
              (AddressEntries(xs)[i].badge == "🏪 Showroom" <==> xs[i].kind == "showroom")
  {
  }

  /** `contactInfo?.phones`, when it is a non-empty list. */
  function ListedPhones(s: SettingsApi.Settings): (r: Option<seq<SettingsApi.Phone>>)
    ensures r.Some? <==> s.contactInfo.Some? && s.contactInfo.value.phones.Some? &&
                         |s.contactInfo.value.phones.value| > 0
    ensures r.Some? ==> r.value == s.contactInfo.value.phones.value
  {
    if s.contactInfo.Some? && s.contactInfo.value.phones.Some? &&
       |s.contactInfo.value.phones.value| > 0
    then s.contactInfo.value.phones else None
  }

  /** `contactInfo?.addresses`, when it is a non-empty list. */
  function ListedAddresses(s: SettingsApi.Settings): (r: Option<seq<SettingsApi.Address>>)
    ensures r.Some? <==> s.contactInfo.Some? && s.contactInfo.value.addresses.Some? &&
                         |s.contactInfo.value.addresses.value| > 0
    ensures r.Some? ==> r.value == s.contactInfo.value.addresses.value
  {
    if s.contactInfo.Some? && s.contactInfo.value.addresses.Some? &&
       |s.contactInfo.value.addresses.value| > 0
    then s.contactInfo.value.addresses else None
  }

  /** `contactInfo?.zalo` when it is set: the link to show. */
  function ZaloLine(s: SettingsApi.Settings): (r: Option<string>)
    ensures r.Some? <==> s.contactInfo.Some? && s.contactInfo.value.zalo != ""
    ensures r.Some? ==> r.value == ZaloHref(s.contactInfo.value.zalo)
  {
    if s.contactInfo.Some? && s.contactInfo.value.zalo != ""
    then Some(ZaloHref(s.contactInfo.value.zalo)) else None
  }

  /** The three working-hours lines, each falling back to its own default. */
  function HoursLines(h: Option<SettingsApi.Hours>): (r: seq<string>)
    ensures |r| == 3
    ensures forall i :: 0 <= i < 3 ==> r[i] != ""
    ensures h.Some? ==> r[0] == Or(h.value.weekdays, DefaultWeekdays) &&
                        r[1] == Or(h.value.saturday, DefaultSaturday) &&
                        r[2] == Or(h.value.sunday, DefaultSunday)
    ensures h.None? ==> r == [DefaultWeekdays, DefaultSaturday, DefaultSunday]
  {
    match h
    case None => [DefaultWeekdays, DefaultSaturday, DefaultSunday]
    case Some(x) => [Or(x.weekdays, DefaultWeekdays), Or(x.saturday, DefaultSaturday),
                     Or(x.sunday, DefaultSunday)]
  }

  function WorkingHours(s: SettingsApi.Settings): Option<SettingsApi.Hours> {
    if s.contactInfo.Some? then s.contactInfo.value.workingHours else None
  }
}
