/**
 * The contact form component (components/ContactForm.tsx): its state, the
 * input and country-selection handlers, the payload it posts, and the
 * reset after a successful submission. The request itself is an input: the
 * submission is split into the part before the request and the part after
 * its outcome is known.
 */
module ContactForm {
  import opened Wrappers
  import ContactRoute

  /** An entry of the country-code dropdown. */
  datatype Country = Country(code: string, country: string, flag: string, name: string)

  /** The dropdown's entries, in display order; the first is the default. */
  const CountryCodes: seq<Country> := FirstCountries + LastCountries

  const FirstCountries: seq<Country> := [
    Country("+1", "US/CA", "\U{1F1FA}\U{1F1F8}", "United States/Canada"),
    Country("+7", "RU", "\U{1F1F7}\U{1F1FA}", "Russia"),
    Country("+20", "EG", "\U{1F1EA}\U{1F1EC}", "Egypt"),
    Country("+27", "ZA", "\U{1F1FF}\U{1F1E6}", "South Africa"),
    Country("+30", "GR", "\U{1F1EC}\U{1F1F7}", "Greece"),
    Country("+31", "NL", "\U{1F1F3}\U{1F1F1}", "Netherlands"),
    Country("+32", "BE", "\U{1F1E7}\U{1F1EA}", "Belgium"),
    Country("+33", "FR", "\U{1F1EB}\U{1F1F7}", "France"),
    Country("+34", "ES", "\U{1F1EA}\U{1F1F8}", "Spain"),
    Country("+36", "HU", "\U{1F1ED}\U{1F1FA}", "Hungary"),
    Country("+39", "IT", "\U{1F1EE}\U{1F1F9}", "Italy"),
    Country("+40", "RO", "\U{1F1F7}\U{1F1F4}", "Romania"),
    Country("+41", "CH", "\U{1F1E8}\U{1F1ED}", "Switzerland"),
    Country("+43", "AT", "\U{1F1E6}\U{1F1F9}", "Austria"),
    Country("+44", "GB", "\U{1F1EC}\U{1F1E7}", "United Kingdom"),
    Country("+45", "DK", "\U{1F1E9}\U{1F1F0}", "Denmark"),
    Country("+46", "SE", "\U{1F1F8}\U{1F1EA}", "Sweden"),
    Country("+47", "NO", "\U{1F1F3}\U{1F1F4}", "Norway"),
    Country("+48", "PL", "\U{1F1F5}\U{1F1F1}", "Poland"),
    Country("+49", "DE", "\U{1F1E9}\U{1F1EA}", "Germany"),
    Country("+55", "BR", "\U{1F1E7}\U{1F1F7}", "Brazil"),
    Country("+60", "MY", "\U{1F1F2}\U{1F1FE}", "Malaysia"),
    Country("+61", "AU", "\U{1F1E6}\U{1F1FA}", "Australia"),
    Country("+62", "ID", "\U{1F1EE}\U{1F1E9}", "Indonesia")
  ]

  const LastCountries: seq<Country> := [
    Country("+63", "PH", "\U{1F1F5}\U{1F1ED}", "Philippines"),
    Country("+65", "SG", "\U{1F1F8}\U{1F1EC}", "Singapore"),
    Country("+66", "TH", "\U{1F1F9}\U{1F1ED}", "Thailand"),
    Country("+81", "JP", "\U{1F1EF}\U{1F1F5}", "Japan"),
    Country("+82", "KR", "\U{1F1F0}\U{1F1F7}", "South Korea"),
    Country("+84", "VN", "\U{1F1FB}\U{1F1F3}", "Vietnam"),
    Country("+86", "CN", "\U{1F1E8}\U{1F1F3}", "China"),
    Country("+90", "TR", "\U{1F1F9}\U{1F1F7}", "Turkey"),
    Country("+91", "IN", "\U{1F1EE}\U{1F1F3}", "India"),
    Country("+351", "PT", "\U{1F1F5}\U{1F1F9}", "Portugal"),
    Country("+353", "IE", "\U{1F1EE}\U{1F1EA}", "Ireland"),
    Country("+358", "FI", "\U{1F1EB}\U{1F1EE}", "Finland"),
    Country("+359", "BG", "\U{1F1E7}\U{1F1EC}", "Bulgaria"),
    Country("+370", "LT", "\U{1F1F1}\U{1F1F9}", "Lithuania"),
    Country("+371", "LV", "\U{1F1F1}\U{1F1FB}", "Latvia"),
    Country("+372", "EE", "\U{1F1EA}\U{1F1EA}", "Estonia"),
    Country("+385", "HR", "\U{1F1ED}\U{1F1F7}", "Croatia"),
    Country("+386", "SI", "\U{1F1F8}\U{1F1EE}", "Slovenia"),
    Country("+420", "CZ", "\U{1F1E8}\U{1F1FF}", "Czech Republic"),
    Country("+421", "SK", "\U{1F1F8}\U{1F1F0}", "Slovakia"),
    Country("+852", "HK", "\U{1F1ED}\U{1F1F0}", "Hong Kong"),
    Country("+886", "TW", "\U{1F1F9}\U{1F1FC}", "Taiwan"),
    Country("+966", "SA", "\U{1F1F8}\U{1F1E6}", "Saudi Arabia"),
    Country("+971", "AE", "\U{1F1E6}\U{1F1EA}", "UAE")
  ]

  /** The contents of the form. */
  datatype FormData = FormData(
    firstName: string, lastName: string, email: string,
    countryCode: string, phone: string, message: string)

  /** The `name` attributes of the form's five text inputs. */
  datatype InputName = FirstName | LastName | Email | Phone | Message

  /** The empty form, with the first country's code. */
  const InitialFormData := FormData("", "", "", "+1", "", "")

  /** The value an input shows. */
  function Field(data: FormData, name: InputName): string
  {
    match name
    case FirstName => data.firstName
    case LastName => data.lastName
    case Email => data.email
    case Phone => data.phone
    case Message => data.message
  }

  /** `{...prev, [name]: value}`: the named input takes the value, everything else stays. */
  function WithInput(data: FormData, name: InputName, value: string): (result: FormData)
    ensures Field(result, name) == value
    ensures forall other :: other != name ==> Field(result, other) == Field(data, other)
    ensures result.countryCode == data.countryCode
  {
    match name
    case FirstName => data.(firstName := value)
    case LastName => data.(lastName := value)
    case Email => data.(email := value)
    case Phone => data.(phone := value)
    case Message => data.(message := value)
  }

  /** Two forms agreeing on every input and on the country code are the same form. */
  lemma FormDataExtensional(a: FormData, b: FormData)
    requires forall name :: Field(a, name) == Field(b, name)
    requires a.countryCode == b.countryCode
    ensures a == b
  {
    assert Field(a, FirstName) == Field(b, FirstName);
    assert Field(a, LastName) == Field(b, LastName);
    assert Field(a, Email) == Field(b, Email);
    assert Field(a, Phone) == Field(b, Phone);
    assert Field(a, Message) == Field(b, Message);
  }

  /** Typing into an input and then restoring its old value gives back the form. */
  lemma WithInputRestore(data: FormData, name: InputName, value: string)
    ensures WithInput(WithInput(data, name, value), name, Field(data, name)) == data
  {
    var restored := WithInput(WithInput(data, name, value), name, Field(data, name));
    FormDataExtensional(restored, data);
  }

  /** The JSON body the form posts. */
  datatype Payload = Payload(
    firstName: string, lastName: string, email: string, countryCode: string,
    phone: string, message: string, submittedAt: string)

  /** The form's data with the phone number prefixed by the country code and a space. */
  function PayloadOf(data: FormData, submittedAt: string): (p: Payload)
    ensures p.phone == data.countryCode + " " + data.phone
    ensures p.firstName == data.firstName && p.lastName == data.lastName && p.email == data.email
    ensures p.countryCode == data.countryCode && p.message == data.message
    ensures p.submittedAt == submittedAt
  {
    Payload(data.firstName, data.lastName, data.email, data.countryCode,
            data.countryCode + " " + data.phone, data.message, submittedAt)
  }

  /** The number as typed is what follows the country code and the space. */
  lemma PhoneRecoverable(data: FormData, submittedAt: string)
    ensures var phone := PayloadOf(data, submittedAt).phone;
      |phone| > |data.countryCode| && phone[..|data.countryCode|] == data.countryCode
      && phone[|data.countryCode|] == ' ' && phone[|data.countryCode| + 1..] == data.phone
  {
  }

  /** The request the endpoint receives for a payload: every field is a string. */
  function AsRequest(p: Payload): ContactRoute.ContactRequest
  {
    ContactRoute.ContactRequest(Some(p.firstName), Some(p.lastName), Some(p.email), Some(p.phone),
                                Some(p.message), Some(p.countryCode), Some(p.submittedAt))
  }

  /**
   * The endpoint's required-field check passes for what the form sends
   * exactly when the name, email and message inputs are filled in; the
   * composed phone field is never empty, even when the number is.
   */
  lemma FormPassesRequiredCheck(data: FormData, submittedAt: string)
    ensures ContactRoute.HasRequiredFields(AsRequest(PayloadOf(data, submittedAt)))
        <==> data.firstName != "" && data.lastName != "" && data.email != "" && data.message != ""
  {
    var phone := PayloadOf(data, submittedAt).phone;
    assert phone[|data.countryCode|] == ' ';
  }

  /** The dropdown's codes are distinct, so they serve as list keys. */
  lemma CountryCodesDistinct()
    ensures forall i, j :: 0 <= i < j < |CountryCodes| ==> CountryCodes[i].code != CountryCodes[j].code
  {
    FirstCountriesDistinct();
    LastCountriesDistinct();
    HalvesDisjoint();
    var a, b := FirstCountries, LastCountries;
    forall i, j | 0 <= i < j < |CountryCodes| ensures CountryCodes[i].code != CountryCodes[j].code {
      if j < |a| {
        assert CountryCodes[i] == a[i] && CountryCodes[j] == a[j];
      } else if i < |a| {
        assert CountryCodes[i] == a[i] && CountryCodes[j] == b[j - |a|];
      } else {
        assert CountryCodes[i] == b[i - |a|] && CountryCodes[j] == b[j - |a|];
      }
    }
  }

  lemma FirstCountriesDistinct()
    ensures forall i, j :: 0 <= i < j < |FirstCountries| ==> FirstCountries[i].code != FirstCountries[j].code
  {
  }

  lemma LastCountriesDistinct()
    ensures forall i, j :: 0 <= i < j < |LastCountries| ==> LastCountries[i].code != LastCountries[j].code
  {
  }

  lemma HalvesDisjoint()
    ensures forall i, j :: 0 <= i < |FirstCountries| && 0 <= j < |LastCountries| ==>
      FirstCountries[i].code != LastCountries[j].code
  {
  }

  /** The initial form carries the first country's code. */
  lemma InitialCountry()
    ensures |CountryCodes| == 48
    ensures CountryCodes[0].code == "+1" == InitialFormData.countryCode
    ensures forall name :: Field(InitialFormData, name) == ""
  {
  }

  /** The component's state. */
  class Form {
    var isSubmitting: bool
    var isSubmitted: bool
    var isDropdownOpen: bool
    var selectedCountry: Country
    var formData: FormData

    /** The country shown is a dropdown entry, and its code is the form's code. */
    predicate Valid()
      reads this
    {
      selectedCountry in CountryCodes && formData.countryCode == selectedCountry.code
    }

    constructor ()
      ensures !isSubmitting && !isSubmitted && !isDropdownOpen
      ensures selectedCountry == CountryCodes[0] && formData == InitialFormData
      ensures Valid()
    {
      isSubmitting, isSubmitted, isDropdownOpen := false, false, false;
      selectedCountry := CountryCodes[0];
      formData := InitialFormData;
    }

    /** `handleInputChange`: the named input takes the typed value. */
    method HandleInputChange(name: InputName, value: string)
      requires Valid()
      modifies this
      ensures formData == WithInput(old(formData), name, value)
      ensures selectedCountry == old(selectedCountry) && isDropdownOpen == old(isDropdownOpen)
      ensures isSubmitting == old(isSubmitting) && isSubmitted == old(isSubmitted)
      ensures Valid()
    {
      formData := WithInput(formData, name, value);
    }

    /** `handleCountrySelect`: show the country, take its code, close the dropdown. */
    method HandleCountrySelect(country: Country)
      requires country in CountryCodes
      modifies this
      ensures selectedCountry == country
      ensures formData == old(formData).(countryCode := country.code)
      ensures !isDropdownOpen
      ensures isSubmitting == old(isSubmitting) && isSubmitted == old(isSubmitted)
      ensures Valid()
    {
      selectedCountry := country;
      formData := formData.(countryCode := country.code);
      isDropdownOpen := false;
    }

    /** The dropdown button flips the dropdown. */
    method ToggleDropdown()
      requires Valid()
      modifies this
      ensures Valid()
      ensures isDropdownOpen == !old(isDropdownOpen)
      ensures formData == old(formData) && selectedCountry == old(selectedCountry)
      ensures isSubmitting == old(isSubmitting) && isSubmitted == old(isSubmitted)
    {
      isDropdownOpen := !isDropdownOpen;
    }

    /**
     * The first half of `handleSubmit`: mark the form as sending and compose
     * the body. The submit button is disabled while sending and the form is
     * replaced by the thank-you view once submitted.
     */
    method BeginSubmit(submittedAt: string) returns (payload: Payload)
      requires Valid() && !isSubmitting && !isSubmitted
      modifies this
      ensures Valid()
      ensures payload == PayloadOf(formData, submittedAt)
      ensures isSubmitting
      ensures formData == old(formData) && selectedCountry == old(selectedCountry)
      ensures isSubmitted == old(isSubmitted) && isDropdownOpen == old(isDropdownOpen)
    {
      isSubmitting := true;
      payload := PayloadOf(formData, submittedAt);
    }

    /**
     * The second half of `handleSubmit`, once the request has ended; `ok` is
     * false when the response is not ok or the request failed. Success
     * resets the form and shows the thank-you view; failure keeps the
     * form as it was. Either way the form stops sending.
     */
    method FinishSubmit(ok: bool)
      requires isSubmitting && Valid()
      modifies this
      ensures !isSubmitting
      ensures ok ==> isSubmitted && formData == InitialFormData && selectedCountry == CountryCodes[0]
      ensures !ok ==> isSubmitted == old(isSubmitted) && formData == old(formData)
                      && selectedCountry == old(selectedCountry)
      ensures isDropdownOpen == old(isDropdownOpen)
      ensures Valid()
    {
      if ok {
        isSubmitted := true;
        formData := InitialFormData;
        selectedCountry := CountryCodes[0];
      }
      isSubmitting := false;
    }

    /** The thank-you view's button brings the (already reset) form back. */
    method SubmitAnother()
      requires Valid()
      modifies this
      ensures Valid()
      ensures !isSubmitted
      ensures formData == old(formData) && selectedCountry == old(selectedCountry)
      ensures isSubmitting == old(isSubmitting) && isDropdownOpen == old(isDropdownOpen)
    {
      isSubmitted := false;
    }
  }
}
