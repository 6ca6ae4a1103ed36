/** Site settings (app/api/admin/settings/route.ts): how the stored JSON is
    read with defaults, and how a PUT body is normalised into a well-formed
    settings record. */
module SettingsApi {
  import opened Wrappers
  import opened Text
  import opened Routes

  /** Contact entries. Optional text is "" when absent. */
  datatype Phone = Phone(id: string, number: string, caption: string)
  datatype Address = Address(id: string, address: string, kind: string, caption: string)
  datatype Hours = Hours(weekdays: string, saturday: string, sunday: string)

  /** `contactInfo`. The lists are `None` when they are not arrays; `zalo`,
      `facebook` and `email` are "" when absent. */
  datatype ContactInfo = ContactInfo(
    phones: Option<seq<Phone>>,
    addresses: Option<seq<Address>>,
    email: string,
    zalo: string,
    facebook: string,
    workingHours: Option<Hours>)

  /** The settings the route hands out. Logo scale and offsets are whole
      numbers here. */
  datatype Settings = Settings(
    logo: string,
    primaryColor: string,
    theme: string,
    address: string,
    phone: string,
    email: string,
    logoScale: int,
    logoOffsetX: int,
    logoOffsetY: int,
    blogEnabled: bool,
    contactInfo: Option<ContactInfo>)

  /** A settings object as found in the file or sent in a PUT body: text is ""
      when absent or falsy, numbers `None` when not of type number,
      `blogEnabled` `None` when undefined, `contactInfo` `None` when falsy. */
  datatype SettingsBody = SettingsBody(
    logo: string,
    primaryColor: string,
    theme: string,
    address: string,
    phone: string,
    email: string,
    logoScale: Option<int>,
    logoOffsetX: Option<int>,
    logoOffsetY: Option<int>,
    blogEnabled: Option<bool>,
    contactInfo: Option<ContactInfo>)

  const DefaultColor := "#d4af37"
  const DefaultTheme := "light"

  /** The settings when the file cannot be read. */
  const Defaults := Settings("", DefaultColor, DefaultTheme, "", "", "", 1, 0, 0, true, None)

  predicate IsTheme(t: string) { t == "light" || t == "dark" || t == "auto" }

  predicate IsAddressKind(k: string) { k == "factory" || k == "showroom" }

  /** `readSettings()`: the stored object with every missing or falsy field
      filled in; `None` is a file that cannot be read or parsed. The stored
      `theme` is not checked and `contactInfo` passes through untouched. */
  function ReadSettings(file: Option<SettingsBody>): (r: Settings)
    ensures r.primaryColor != "" && r.theme != ""
    ensures file.None? ==> r == Defaults
    ensures file.Some? ==> r.logo == file.value.logo && r.address == file.value.address &&
                           r.phone == file.value.phone && r.email == file.value.email
    ensures file.Some? && file.value.primaryColor == "" ==> r.primaryColor == DefaultColor
    ensures file.Some? && file.value.primaryColor != "" ==> r.primaryColor == file.value.primaryColor
    ensures file.Some? && file.value.theme == "" ==> r.theme == DefaultTheme
    ensures file.Some? && file.value.theme != "" ==> r.theme == file.value.theme
    ensures file.Some? ==> r.logoScale == file.value.logoScale.GetOr(1) &&
                           r.logoOffsetX == file.value.logoOffsetX.GetOr(0) &&
                           r.logoOffsetY == file.value.logoOffsetY.GetOr(0)
    ensures file.Some? ==> r.blogEnabled == file.value.blogEnabled.GetOr(true)
    ensures file.Some? ==> r.contactInfo == file.value.contactInfo
  {
    match file
    case None => Defaults
    case Some(p) =>
      Settings(
        p.logo,
        if p.primaryColor != "" then p.primaryColor else DefaultColor,
        if p.theme != "" then p.theme else DefaultTheme,
        p.address, p.phone, p.email,
        p.logoScale.GetOr(1), p.logoOffsetX.GetOr(0), p.logoOffsetY.GetOr(0),
        p.blogEnabled.GetOr(true),
        p.contactInfo)
  }

  /** The id a contact entry gets when it has none:
      `Date.now().toString() + Math.random()`, with `random(k)` the text of
      the k-th random number drawn. */
  function FreshId(clock: nat, random: nat -> string, k: nat): (r: string)
    ensures r != ""
  {
    Decimal(clock) + random(k)
  }

  function KeepOrFresh(id: string, clock: nat, random: nat -> string, k: nat): (r: string)
    ensures r != ""
    ensures id != "" ==> r == id
  {
    if id != "" then id else FreshId(clock, random, k)
  }

  /** Each phone keeps its number and caption (`label`), and its id or a fresh one. */
  function NormalizePhones(ps: seq<Phone>, clock: nat, random: nat -> string): (r: seq<Phone>)
    ensures |r| == |ps|
    ensures forall i :: 0 <= i < |r| ==>
              r[i].id != "" && r[i].number == ps[i].number && r[i].caption == ps[i].caption
    ensures forall i :: 0 <= i < |r| && ps[i].id != "" ==> r[i].id == ps[i].id
  {
    seq(|ps|, i requires 0 <= i < |ps| =>
      ps[i].(id := KeepOrFresh(ps[i].id, clock, random, i)))
  }

  /** Each address keeps its text and caption (`label`), its id or a fresh one, and its
      type if that is 'factory' or 'showroom' ('factory' otherwise).
      `first` counts the random numbers the phones drew before. */
  function NormalizeAddresses(xs: seq<Address>, clock: nat, random: nat -> string, first: nat)
    : (r: seq<Address>)
    ensures |r| == |xs|
    ensures forall i :: 0 <= i < |r| ==>
              r[i].id != "" && IsAddressKind(r[i].kind) &&
              r[i].address == xs[i].address && r[i].caption == xs[i].caption
    ensures forall i :: 0 <= i < |r| && xs[i].id != "" ==> r[i].id == xs[i].id
    ensures forall i :: 0 <= i < |r| && IsAddressKind(xs[i].kind) ==> r[i].kind == xs[i].kind
    ensures forall i :: 0 <= i < |r| && !IsAddressKind(xs[i].kind) ==> r[i].kind == "factory"
  {
    seq(|xs|, i requires 0 <= i < |xs| =>
      xs[i].(id := KeepOrFresh(xs[i].id, clock, random, first + i),
             kind := if IsAddressKind(xs[i].kind) then xs[i].kind else "factory"))
  }

  function PhoneCount(phones: Option<seq<Phone>>): nat {
    if phones.Some? then |phones.value| else 0
  }

  /** `contactInfo` as PUT stores it; `email` falls back to the top-level
      email. */
  function NormalizeContact(ci: ContactInfo, email: string, clock: nat, random: nat -> string)
    : (r: ContactInfo)
    ensures r.phones.Some? <==> ci.phones.Some?
    ensures r.addresses.Some? <==> ci.addresses.Some?
    ensures ci.phones.Some? ==> r.phones.value == NormalizePhones(ci.phones.value, clock, random)
    ensures ci.addresses.Some? ==>
              r.addresses.value == NormalizeAddresses(ci.addresses.value, clock, random, PhoneCount(ci.phones))
    ensures ci.email != "" ==> r.email == ci.email
    ensures ci.email == "" ==> r.email == email
    ensures r.zalo == ci.zalo && r.facebook == ci.facebook && r.workingHours == ci.workingHours
  {
    ci.(
      phones := if ci.phones.Some? then Some(NormalizePhones(ci.phones.value, clock, random)) else None,
      addresses := if ci.addresses.Some? then
                     Some(NormalizeAddresses(ci.addresses.value, clock, random, PhoneCount(ci.phones)))
                   else None,
      email := if ci.email != "" then ci.email else email)
  }

  /** Every contact entry has an id and every address a known type; the
      contact email is empty only when the top-level one is. */
  predicate ContactWellFormed(ci: ContactInfo, email: string) {
    && (ci.phones.Some? ==> forall i :: 0 <= i < |ci.phones.value| ==> ci.phones.value[i].id != "")
    && (ci.addresses.Some? ==> forall i :: 0 <= i < |ci.addresses.value| ==>
          ci.addresses.value[i].id != "" && IsAddressKind(ci.addresses.value[i].kind))
    && (ci.email == "" ==> email == "")
  }

  /** What PUT promises of the settings it stores. */
  predicate WellFormed(s: Settings) {
    && s.primaryColor != ""
    && IsTheme(s.theme)
    && (s.contactInfo.Some? ==> ContactWellFormed(s.contactInfo.value, s.email))
  }

  /** The normalisation in PUT: a total map from any body to well-formed
      settings. `clock` is `Date.now()` and `random` supplies `Math.random()`. */
  function NormalizeSettings(b: SettingsBody, clock: nat, random: nat -> string): (r: Settings)
    ensures WellFormed(r)
    ensures IsTheme(b.theme) ==> r.theme == b.theme
    ensures !IsTheme(b.theme) ==> r.theme == DefaultTheme
    ensures b.primaryColor != "" ==> r.primaryColor == b.primaryColor
    ensures b.primaryColor == "" ==> r.primaryColor == DefaultColor
    ensures r.logo == b.logo && r.address == b.address && r.phone == b.phone && r.email == b.email
    ensures r.logoScale == b.logoScale.GetOr(1) && r.logoOffsetX == b.logoOffsetX.GetOr(0) &&
            r.logoOffsetY == b.logoOffsetY.GetOr(0)
    ensures r.blogEnabled == b.blogEnabled.GetOr(true)
    ensures r.contactInfo.Some? <==> b.contactInfo.Some?
    ensures b.contactInfo.Some? ==>
              r.contactInfo.value == NormalizeContact(b.contactInfo.value, b.email, clock, random)
  {
    Settings(
      b.logo,
      if b.primaryColor != "" then b.primaryColor else DefaultColor,
      if IsTheme(b.theme) then b.theme else DefaultTheme,
      b.address, b.phone, b.email,
      b.logoScale.GetOr(1), b.logoOffsetX.GetOr(0), b.logoOffsetY.GetOr(0),
      b.blogEnabled.GetOr(true),
      if b.contactInfo.Some? then Some(NormalizeContact(b.contactInfo.value, b.email, clock, random))
      else None)
  }

  datatype SettingsError = Crashed   // 500: the body could not be read

  /** PUT: the normalised settings are both stored and answered; a missing
      body is a server error. */
  function Put(body: Option<SettingsBody>, clock: nat, random: nat -> string)
    : (r: Reply<Settings, Settings, SettingsError>)
    ensures body.None? <==> r == Fail(500, Crashed)
    ensures r.Ok? ==> r.store == r.body && WellFormed(r.store)
    ensures r.Ok? ==> r.store == NormalizeSettings(body.value, clock, random)
  {
    match body
    case None => Fail(500, Crashed)
    case Some(b) =>
      var next := NormalizeSettings(b, clock, random);
      Ok(next, next)
  }

  /** The settings as written to the file and read back as a body. */
  function ToBody(s: Settings): SettingsBody {
    SettingsBody(s.logo, s.primaryColor, s.theme, s.address, s.phone, s.email,
                 Some(s.logoScale), Some(s.logoOffsetX), Some(s.logoOffsetY),
                 Some(s.blogEnabled), s.contactInfo)
  }

  /** Well-formed settings are a fixed point of the normalisation, whatever
      the clock and random numbers. */
  lemma NormalizeOfWellFormed(s: Settings, clock: nat, random: nat -> string)
    requires WellFormed(s)
    ensures NormalizeSettings(ToBody(s), clock, random) == s
  {
    if s.contactInfo.Some? {
      var ci := s.contactInfo.value;
      var n := NormalizeContact(ci, s.email, clock, random);
      if ci.phones.Some? {
        assert NormalizePhones(ci.phones.value, clock, random) == ci.phones.value;
      }
      if ci.addresses.Some? {
        assert NormalizeAddresses(ci.addresses.value, clock, random, PhoneCount(ci.phones)) ==
               ci.addresses.value;
      }
      assert n == ci;
    }
  }

  /** Normalising what PUT stored changes nothing. */
  lemma NormalizeIdempotent(b: SettingsBody, clock: nat, random: nat -> string,
                            clock2: nat, random2: nat -> string)
    ensures NormalizeSettings(ToBody(NormalizeSettings(b, clock, random)), clock2, random2) ==
            NormalizeSettings(b, clock, random)
  {
    NormalizeOfWellFormed(NormalizeSettings(b, clock, random), clock2, random2);
  }

  /** What PUT stores reads back unchanged through `readSettings`. */
  lemma ReadAfterPut(b: SettingsBody, clock: nat, random: nat -> string)
    ensures ReadSettings(Some(ToBody(NormalizeSettings(b, clock, random)))) ==
            NormalizeSettings(b, clock, random)
  {
  }
}
