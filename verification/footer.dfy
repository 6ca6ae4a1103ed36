/** The site footer (components/Footer.tsx): the contact block with its
    fallback chains. */
module Footer {
  import opened Wrappers
  import opened Text
  import opened ContactLinks
  import SettingsApi

  /** The addresses: the configured list, or the one fallback address. */
  datatype AddressView = AddressList(entries: seq<AddressEntry>) | SingleAddress(text: string)

  /** The phones: the configured list, or the configured (or default) phone
      linking to zalo. */
  datatype PhoneView = PhoneList(phones: seq<PhoneEntry>) | SinglePhone(shown: string, href: string)

  /** `settings.address || '123 Đường ABC, Quận XYZ, TP.HCM'`. */
  function FallbackAddress(s: SettingsApi.Settings): (r: string)
    ensures r != ""
    ensures s.address != "" ==> r == s.address
    ensures s.address == "" ==> r == DefaultAddress
  {
    Or(s.address, DefaultAddress)
  }

  function Addresses(s: SettingsApi.Settings): (r: AddressView)
    ensures r.AddressList? <==> ListedAddresses(s).Some?
    ensures r.AddressList? ==> |r.entries| == |ListedAddresses(s).value| > 0
    ensures r.AddressList? ==>
      forall i :: 0 <= i < |r.entries| ==> r.entries[i].text == ListedAddresses(s).value[i].address
    ensures r.SingleAddress? ==> r.text == FallbackAddress(s)
  {
    match ListedAddresses(s)
    case Some(xs) => AddressList(AddressEntries(xs))
    case None => SingleAddress(FallbackAddress(s))
  }

  function Phones(s: SettingsApi.Settings): (r: PhoneView)
    ensures r.PhoneList? <==> ListedPhones(s).Some?
    ensures r.PhoneList? ==> |r.phones| == |ListedPhones(s).value| > 0
    ensures r.PhoneList? ==>
      forall i :: 0 <= i < |r.phones| ==> r.phones[i] == PhoneEntryOf(ListedPhones(s).value[i])
    ensures r.SinglePhone? ==> r.shown == Or(s.phone, DefaultPhoneText) && r.href == ZaloLink(s.phone)
  {
    match ListedPhones(s)
    case Some(ps) => PhoneList(PhoneEntries(ps))
    case None => SinglePhone(Or(s.phone, DefaultPhoneText), ZaloLink(s.phone))
  }

  /** `contactInfo?.email || settings.email || 'info@congnhomduc.com'`. */
  function Email(s: SettingsApi.Settings): (r: string)
    ensures r != ""
    ensures s.contactInfo.Some? && s.contactInfo.value.email != "" ==> r == s.contactInfo.value.email
    ensures (s.contactInfo.None? || s.contactInfo.value.email == "") && s.email != "" ==> r == s.email
    ensures (s.contactInfo.None? || s.contactInfo.value.email == "") && s.email == "" ==> r == DefaultEmail
  {
    var fromContact := if s.contactInfo.Some? then s.contactInfo.value.email else "";
    Or(fromContact, Or(s.email, DefaultEmail))
  }

  /** The working hours appear only when the settings have them. */
  function Hours(s: SettingsApi.Settings): (r: Option<seq<string>>)
    ensures r.Some? <==> WorkingHours(s).Some?
    ensures r.Some? ==> r.value == HoursLines(WorkingHours(s))
  {
    match WorkingHours(s)
    case None => None
    case Some(h) => Some(HoursLines(Some(h)))
  }
}
