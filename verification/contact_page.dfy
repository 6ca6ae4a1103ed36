/** The contact page (app/lien-he/page.tsx): the same contact details as the
    footer, with its own choices for the e-mail, the working hours and the
    map. */
module ContactPage {
  import opened Wrappers
  import opened Text
  import opened ContactLinks
  import SettingsApi
  import Footer

  /** The phones: the configured list, or a `tel:` link with the dialable
      number and a zalo link, both under the configured (or default) phone. */
  datatype PhoneView = PhoneList(phones: seq<PhoneEntry>) | SinglePhone(shown: string, tel: string, zalo: string)

  function Phones(s: SettingsApi.Settings): (r: PhoneView)
    ensures r.PhoneList? <==> ListedPhones(s).Some?
    ensures r.PhoneList? ==> |r.phones| == |ListedPhones(s).value| > 0
    ensures r.PhoneList? ==>
      forall i :: 0 <= i < |r.phones| ==> r.phones[i] == PhoneEntryOf(ListedPhones(s).value[i])
    ensures r.SinglePhone? ==> r.shown == Or(s.phone, DefaultPhoneText) && r.zalo == ZaloLink(s.phone)
    ensures r.SinglePhone? ==> StartsWith(r.tel, "tel:") && AllDigits(r.tel[4..])
    ensures r.SinglePhone? ==> r.tel[4..] == PhoneNumber(s.phone)
  {
    match ListedPhones(s)
    case Some(ps) => PhoneList(PhoneEntries(ps))
    case None => SinglePhone(Or(s.phone, DefaultPhoneText), "tel:" + PhoneNumber(s.phone), ZaloLink(s.phone))
  }

  /** The page lists the same addresses, and the same fallback, as the footer. */
  function Addresses(s: SettingsApi.Settings): (r: Footer.AddressView)
    ensures r == Footer.Addresses(s)
  {
    match ListedAddresses(s)
    case Some(xs) => Footer.AddressList(AddressEntries(xs))
    case None => Footer.SingleAddress(Footer.FallbackAddress(s))
  }

  /** `settings.email || 'info@congnhomduc.com'`: unlike the footer, the page
      ignores `contactInfo.email`. */
  function Email(s: SettingsApi.Settings): (r: string)
    ensures r != ""
    ensures s.email != "" ==> r == s.email
    ensures s.email == "" ==> r == DefaultEmail
  {
    Or(s.email, DefaultEmail)
  }

  /** The page and the footer show the same e-mail exactly when the contact
      e-mail is unset or agrees with what the page shows. */
  lemma EmailAgreesWithFooter(s: SettingsApi.Settings)
    ensures Email(s) == Footer.Email(s) <==>
            s.contactInfo.None? || s.contactInfo.value.email == "" ||
            s.contactInfo.value.email == Email(s)
  {
  }

  /** The working hours are always shown, each line with its own default. */
  function Hours(s: SettingsApi.Settings): (r: seq<string>)
    ensures |r| == 3
    ensures WorkingHours(s).None? ==> r == [DefaultWeekdays, DefaultSaturday, DefaultSunday]
    ensures WorkingHours(s).Some? && WorkingHours(s).value.saturday == "" ==> r[1] == DefaultSaturday
    ensures Footer.Hours(s).Some? ==> r == Footer.Hours(s).value
  {
    HoursLines(WorkingHours(s))
  }

  /** `firstAddress`: the first listed address, else the fallback address;
      `None` when it is empty and the map gives way to a notice. */
  function MapAddress(s: SettingsApi.Settings): (r: Option<string>)
    ensures ListedAddresses(s).Some? ==>
              (r.Some? <==> ListedAddresses(s).value[0].address != "") &&
              (r.Some? ==> r.value == ListedAddresses(s).value[0].address)
    ensures ListedAddresses(s).None? ==> r == Some(Footer.FallbackAddress(s))
  {
    var first := match ListedAddresses(s)
      case Some(xs) => xs[0].address
      case None => Footer.FallbackAddress(s);
    if first != "" then Some(first) else None
  }

  /** The map is missing only when the first listed address is empty; with
      no list, the fallback address always yields one. */
  lemma MapShownUnlessFirstEmpty(s: SettingsApi.Settings)
    ensures MapAddress(s).None? <==>
            ListedAddresses(s).Some? && ListedAddresses(s).value[0].address == ""
  {
  }
}
