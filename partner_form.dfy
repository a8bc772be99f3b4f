/**
 * The partner edit form: the checks the form runs before saving, the digit
 * filters on the rating and INN boxes, and the copy of the form's fields into
 * the partner entity and its director and partner-name entities.
 */
module PartnerForm {
  import opened Nullable
  import opened Text
  import opened EmailPattern

  /**
   * What the form shows when Save is pressed: the id of the selected partner
   * type, if any, and the text of each text box (a WPF text box never yields null).
   */
  datatype FormFields = FormFields(
    selectedType: Option<int>,
    name: string,
    familyName: string,
    firstName: string,
    patronymic: string,
    address: string,
    rating: string,
    phone: string,
    email: string,
    inn: string)

  /** The INN check: ten or twelve digits and nothing else. */
  predicate IsValidInn(inn: string) {
    AllDigits(inn) && (|inn| == 10 || |inn| == 12)
  }

  /** The e-mail check: the address pattern matches (the pattern is fixed, so it never fails to compile). */
  predicate IsValidEmail(email: string) {
    IsMatch(email)
  }

  /** A well-formed INN is stored exactly as typed, and it is never blank. */
  lemma ValidInnIsTrimmed(inn: string)
    requires IsValidInn(inn)
    ensures Trim(inn) == inn && !IsBlank(inn)
  {
    assert NoWhiteSpace(inn);
    TrimNoWhiteSpace(inn);
    assert !IsWhiteSpace(inn[0]);
  }

  lemma InnExamples()
    ensures !IsValidInn("123456789")
    ensures IsValidInn("1234567890")
    ensures IsValidInn("123456789012")
    ensures !IsValidInn("12345 7890")
    ensures !IsValidInn("12345678901")
  {
    assert "12345 7890"[5] == ' ';
  }

  /** A valid address, trimmed before it is stored, loses only a final '\n' and stays valid. */
  lemma ValidEmailTrimmed(email: string)
    requires IsValidEmail(email)
    ensures Trim(email) == Chomp(email) && IsValidEmail(Trim(email))
  {
    IsMatchIff(email);
    var c := Chomp(email);
    assert NoWhiteSpace(c);
    if c == email {
      TrimNoWhiteSpace(c);
    } else {
      assert email == c + "\n";
      assert !IsWhiteSpace(c[0]) && !IsWhiteSpace(c[|c| - 1]);
      TrimByDropsTrailing(c, "\n", IsWhiteSpace);
    }
    assert Chomp(c) == c;
    IsMatchIff(c);
  }

  lemma EmailAccepted()
    ensures IsValidEmail("foo@bar.com")
  {
    var s := "foo@bar.com";
    assert Chomp(s) == s;
    assert s[3] == '@' && s[..3] == "foo" && s[4..] == "bar.com";
    assert EmailChars("foo");
    assert EmailChars("bar.com");
    assert "bar.com"[3] == '.';
    assert SplitAt(s, 3);
    FromLocalStart(s);
  }

  lemma EmailWithoutDotRejected()
    ensures !IsValidEmail("foo@bar")
  {
  }

  lemma EmailWithLeadingSpaceRejected()
    ensures !IsValidEmail(" foo@bar.com")
  {
  }

  lemma EmailWithTwoAtsRejected()
    ensures !IsValidEmail("foo@@bar.com")
  {
  }

  lemma EmailWithDotFirstRejected()
    ensures !IsValidEmail("foo@.com")
  {
  }

  /** `$` matches before a final line feed, so one trailing '\n' is accepted. */
  lemma EmailWithFinalNewlineAccepted()
    ensures IsValidEmail("a@b.c\n")
  {
  }

  /** The checks of the form, in the order it runs them; each has its own message. */
  datatype Rule =
    | TypeSelected
    | NameGiven
    | FamilyNameGiven
    | FirstNameGiven
    | PatronymicGiven
    | AddressGiven
    | RatingValid
    | PhoneGiven
    | EmailValid
    | InnGiven
    | InnFormat

  /** The position of a check in the order the form runs them. */
  function Rank(r: Rule): nat {
    match r
    case TypeSelected => 0
    case NameGiven => 1
    case FamilyNameGiven => 2
    case FirstNameGiven => 3
    case PatronymicGiven => 4
    case AddressGiven => 5
    case RatingValid => 6
    case PhoneGiven => 7
    case EmailValid => 8
    case InnGiven => 9
    case InnFormat => 10
  }

  /** The message shown when a check fails. */
  function Message(r: Rule): string {
    match r
    case TypeSelected => "Выберите тип партнера"
    case NameGiven => "Введите наименование партнера"
    case FamilyNameGiven => "Введите фамилию директора"
    case FirstNameGiven => "Введите имя директора"
    case PatronymicGiven => "Введите отчество директора"
    case AddressGiven => "Введите адрес"
    case RatingValid => "Рейтинг должен быть целым неотрицательным числом"
    case PhoneGiven => "Введите телефон"
    case EmailValid => "Введите корректный email адрес"
    case InnGiven => "Введите ИНН"
    case InnFormat => "ИНН должен содержать 10 или 12 цифр"
  }

  /** The rating parses as a 32-bit integer that is not negative. */
  predicate RatingAccepted(rating: string) {
    match TryParseInt32(rating)
    case Some(n) => n >= 0
    case None => false
  }

  /** Whether the form passes one check. */
  predicate Holds(f: FormFields, r: Rule) {
    match r
    case TypeSelected => f.selectedType.Some?
    case NameGiven => !IsBlank(f.name)
    case FamilyNameGiven => !IsBlank(f.familyName)
    case FirstNameGiven => !IsBlank(f.firstName)
    case PatronymicGiven => !IsBlank(f.patronymic)
    case AddressGiven => !IsBlank(f.address)
    case RatingValid => RatingAccepted(f.rating)
    case PhoneGiven => !IsBlank(f.phone)
    case EmailValid => IsBlank(f.email) || IsValidEmail(f.email)
    case InnGiven => !IsBlank(f.inn)
    case InnFormat => IsValidInn(f.inn)
  }

  datatype Verdict = Accepted | Rejected(rule: Rule)

  /**
   * The form's validation: the checks run one after another and the first that
   * fails is reported. The form is accepted exactly when every check passes;
   * otherwise the reported check fails and every earlier one passes.
   */
  function ValidateInput(f: FormFields): (v: Verdict)
    ensures v.Rejected? ==> !Holds(f, v.rule) && forall r :: Rank(r) < Rank(v.rule) ==> Holds(f, r)
    ensures v.Accepted? <==> forall r :: Holds(f, r)
  {
    if !Holds(f, TypeSelected) then Rejected(TypeSelected)
    else if !Holds(f, NameGiven) then PassedBefore(f, 1); Rejected(NameGiven)
    else if !Holds(f, FamilyNameGiven) then PassedBefore(f, 2); Rejected(FamilyNameGiven)
    else if !Holds(f, FirstNameGiven) then PassedBefore(f, 3); Rejected(FirstNameGiven)
    else if !Holds(f, PatronymicGiven) then PassedBefore(f, 4); Rejected(PatronymicGiven)
    else if !Holds(f, AddressGiven) then PassedBefore(f, 5); Rejected(AddressGiven)
    else if !Holds(f, RatingValid) then PassedBefore(f, 6); Rejected(RatingValid)
    else if !Holds(f, PhoneGiven) then PassedBefore(f, 7); Rejected(PhoneGiven)
    else if !Holds(f, EmailValid) then PassedBefore(f, 8); Rejected(EmailValid)
    else if !Holds(f, InnGiven) then PassedBefore(f, 9); Rejected(InnGiven)
    else if !Holds(f, InnFormat) then PassedBefore(f, 10); Rejected(InnFormat)
    else PassedBefore(f, 11); Accepted
  }

  /** The checks of rank below `k` pass when each of them, named one by one, passes. */
  lemma PassedBefore(f: FormFields, k: nat)
    requires k > 0 ==> Holds(f, TypeSelected)
    requires k > 1 ==> Holds(f, NameGiven)
    requires k > 2 ==> Holds(f, FamilyNameGiven)
    requires k > 3 ==> Holds(f, FirstNameGiven)
    requires k > 4 ==> Holds(f, PatronymicGiven)
    requires k > 5 ==> Holds(f, AddressGiven)
    requires k > 6 ==> Holds(f, RatingValid)
    requires k > 7 ==> Holds(f, PhoneGiven)
    requires k > 8 ==> Holds(f, EmailValid)
    requires k > 9 ==> Holds(f, InnGiven)
    requires k > 10 ==> Holds(f, InnFormat)
    ensures forall r :: Rank(r) < k ==> Holds(f, r)
    ensures k > 10 ==> forall r :: Holds(f, r)
  {
    forall r | Rank(r) < k
      ensures Holds(f, r)
    {
      match r
      case TypeSelected =>
      case NameGiven =>
      case FamilyNameGiven =>
      case FirstNameGiven =>
      case PatronymicGiven =>
      case AddressGiven =>
      case RatingValid =>
      case PhoneGiven =>
      case EmailValid =>
      case InnGiven =>
      case InnFormat =>
    }
  }

  /**
   * The message the form shows, if any: none when every check passes,
   * otherwise the message of a check that fails while all earlier ones pass.
   */
  function ValidationMessage(f: FormFields): (m: Option<string>)
    ensures m.None? <==> forall r :: Holds(f, r)
    ensures m.Some? ==> exists r :: !Holds(f, r) && (forall q :: Rank(q) < Rank(r) ==> Holds(f, q)) && m.value == Message(r)
  {
    match ValidateInput(f)
    case Accepted => None
    case Rejected(r) => Some(Message(r))
  }

  /** Different checks show different messages. */
  lemma MessagesDistinct(r1: Rule, r2: Rule)
    requires r1 != r2
    ensures Message(r1) != Message(r2)
  {
    assert |Message(r1)| > 0 && |Message(r2)| > 0;
    if Message(r1) == Message(r2) {
      MessageDetermines(r1, r2);
    }
  }

  /** A message names its check. */
  lemma MessageDetermines(r1: Rule, r2: Rule)
    requires Message(r1) == Message(r2)
    ensures r1 == r2
  {
    var m1, m2 := Message(r1), Message(r2);
    assert |m1| == |m2| && m1[0] == m2[0] && m1[|m1| - 1] == m2[|m2| - 1] && m1[1] == m2[1] && m1[8] == m2[8];
  }

  /** A well-formed INN is never blank, so the INN-given check only reports a blank INN. */
  lemma InnFormatImpliesGiven(f: FormFields)
    requires Holds(f, InnFormat)
    ensures Holds(f, InnGiven)
  {
    ValidInnIsTrimmed(f.inn);
  }

  /** A blank or missing e-mail address passes; a given one is checked as typed, not trimmed. */
  lemma EmailOptional(f: FormFields)
    ensures IsBlank(f.email) ==> Holds(f, EmailValid)
    ensures |f.email| > 0 && IsWhiteSpace(f.email[0]) && !IsBlank(f.email) ==> !Holds(f, EmailValid)
  {
    if |f.email| > 0 && IsWhiteSpace(f.email[0]) && !IsBlank(f.email) {
      IsMatchIff(f.email);
    }
  }

  /** The rating check: "0" and "42" pass, "-1", "abc" and the empty text fail. */
  lemma RatingExamples()
    ensures RatingAccepted("0") && RatingAccepted("42")
    ensures !RatingAccepted("-1") && !RatingAccepted("abc") && !RatingAccepted("")
  {
    TryParseAcceptsDigits();
    TryParseAcceptsNegative();
    TryParseRejects();
  }

  /** An accepted form has a selected type and every required text is non-empty once trimmed. */
  lemma AcceptedTexts(f: FormFields)
    requires ValidateInput(f).Accepted?
    ensures f.selectedType.Some?
    ensures Trim(f.name) != [] && Trim(f.familyName) != [] && Trim(f.firstName) != []
    ensures Trim(f.patronymic) != [] && Trim(f.address) != [] && Trim(f.phone) != []
  {
    assert Holds(f, TypeSelected);
    assert Holds(f, NameGiven) && Holds(f, FamilyNameGiven) && Holds(f, FirstNameGiven);
    assert Holds(f, PatronymicGiven) && Holds(f, AddressGiven) && Holds(f, PhoneGiven);
    StoredTexts(f.name, f.familyName, f.firstName, f.patronymic, f.address, f.phone);
  }

  /** An accepted form's INN is well formed and is stored exactly as typed. */
  lemma AcceptedInn(f: FormFields)
    requires ValidateInput(f).Accepted?
    ensures Trim(f.inn) == f.inn && IsValidInn(f.inn)
  {
    assert Holds(f, InnFormat);
    ValidInnIsTrimmed(f.inn);
  }

  /** An accepted form's rating parses to a value that is not negative. */
  lemma AcceptedRating(f: FormFields)
    requires ValidateInput(f).Accepted?
    ensures TryParseInt32(f.rating).Some? && TryParseInt32(f.rating).value >= 0
  {
    assert Holds(f, RatingValid);
  }

  /** An accepted form's e-mail address is stored as the empty text or as a valid address. */
  lemma AcceptedEmail(f: FormFields)
    requires ValidateInput(f).Accepted?
    ensures Trim(f.email) == [] || IsValidEmail(Trim(f.email))
  {
    assert Holds(f, EmailValid);
    StoredEmail(f.email);
  }

  /** Texts that are not blank all keep something after `Trim`. */
  lemma StoredTexts(name: string, familyName: string, firstName: string, patronymic: string, address: string, phone: string)
    requires !IsBlank(name) && !IsBlank(familyName) && !IsBlank(firstName)
    requires !IsBlank(patronymic) && !IsBlank(address) && !IsBlank(phone)
    ensures Trim(name) != [] && Trim(familyName) != [] && Trim(firstName) != []
    ensures Trim(patronymic) != [] && Trim(address) != [] && Trim(phone) != []
  {
    GivenIsNotTrimmedAway(name);
    GivenIsNotTrimmedAway(familyName);
    GivenIsNotTrimmedAway(firstName);
    GivenIsNotTrimmedAway(patronymic);
    GivenIsNotTrimmedAway(address);
    GivenIsNotTrimmedAway(phone);
  }

  /** A text that is not blank keeps something after `Trim`. */
  lemma GivenIsNotTrimmedAway(s: string)
    requires !IsBlank(s)
    ensures Trim(s) != []
  {
    TrimEnds(s);
  }

  /** An e-mail text that passes the check is stored as the empty text or as a valid address. */
  lemma StoredEmail(email: string)
    requires IsBlank(email) || IsValidEmail(email)
    ensures Trim(email) == [] || IsValidEmail(Trim(email))
  {
    if IsBlank(email) {
      TrimEnds(email);
    } else {
      ValidEmailTrimmed(email);
    }
  }

  /**
   * The keystroke filter on the rating and INN boxes: whether the typed text is
   * refused. It looks at the first character only; `None` is the exception
   * `char.IsDigit(text, 0)` throws for an empty text.
   */
  function KeystrokeRefused(text: string): Option<bool>
  {
    if text == [] then None else Some(!IsDigit(text[0]))
  }

  /** Text typed one accepted keystroke at a time consists of digits only. */
  lemma {:induction false} TypedTextIsDigits(keys: seq<string>)
    requires forall k :: 0 <= k < |keys| ==> KeystrokeRefused(keys[k]) == Some(false) && |keys[k]| == 1
    ensures AllDigits(Concat(keys))
  {
    if keys != [] {
      TypedTextIsDigits(keys[..|keys| - 1]);
      var init := Concat(keys[..|keys| - 1]);
      assert Concat(keys) == init + keys[|keys| - 1];
      assert forall i :: |init| <= i < |init| + 1 ==> Concat(keys)[i] == keys[|keys| - 1][0];
    }
  }

  /** The keystrokes that passed the filter, appended in order. */
  function Concat(keys: seq<string>): string {
    if keys == [] then [] else Concat(keys[..|keys| - 1]) + keys[|keys| - 1]
  }

  /** Only the first character is looked at: a multi-character composition such as "1a" gets through. */
  lemma KeystrokeExamples()
    ensures KeystrokeRefused("1a") == Some(false)
    ensures KeystrokeRefused("a1") == Some(true)
    ensures KeystrokeRefused("") == None
  {
  }

  /** A director's name record; the form edits it in place or creates it. */
  class DirectorNames {
    var id: int
    var familyName: string
    var name: string
    var patronymic: string

    /** `new DirectorNames { FamilyName = ..., Name = ..., Patronymic = ... }`: the id is left at 0. */
    constructor (familyName: string, name: string, patronymic: string)
      ensures this.id == 0
      ensures this.familyName == familyName && this.name == name && this.patronymic == patronymic
    {
      this.id := 0;
      this.familyName := familyName;
      this.name := name;
      this.patronymic := patronymic;
    }
  }

  /** A partner's name record; the form edits it in place or creates it. */
  class PartnerNames {
    var id: int
    var name: string

    /** `new PartnerNames { Name = ... }`: the id is left at 0. */
    constructor (name: string)
      ensures this.id == 0 && this.name == name
    {
      this.id := 0;
      this.name := name;
    }
  }

  /** A partner row with its director and name records loaded alongside it. */
  class PartnersInfo {
    var id: int
    var idPartnerType: int
    var idPartnerName: int
    var idDirectorName: int
    var jurAddress: string
    var phoneNumber: string
    var email: string
    var inn: string
    var rate: int
    var directorNames: DirectorNames?
    var partnerNames: PartnerNames?

    /** `new PartnersInfo()`: zero ids and rate, empty texts, no related records. */
    constructor ()
      ensures id == 0 && idPartnerType == 0 && idPartnerName == 0 && idDirectorName == 0
      ensures jurAddress == [] && phoneNumber == [] && email == [] && inn == [] && rate == 0
      ensures directorNames == null && partnerNames == null
    {
      id, idPartnerType, idPartnerName, idDirectorName := 0, 0, 0, 0;
      jurAddress, phoneNumber, email, inn := [], [], [], [];
      rate := 0;
      directorNames, partnerNames := null, null;
    }

    /**
     * What an accepted form leaves behind: both related records exist, every
     * required text is non-empty, the INN is well formed, the e-mail address is
     * empty or valid, and the rating is not negative.
     */
    predicate Complete()
      reads this, directorNames, partnerNames
    {
      && directorNames != null && partnerNames != null
      && directorNames.familyName != [] && directorNames.name != [] && directorNames.patronymic != []
      && partnerNames.name != []
      && jurAddress != [] && phoneNumber != []
      && IsValidInn(inn) && (email == [] || IsValidEmail(email))
      && rate >= 0
    }
  }

  /**
   * What the update takes from the form: the selected type's id, the trimmed
   * texts, and the rating if it parses.
   */
  datatype FormValues = FormValues(
    typeId: int,
    address: string,
    phone: string,
    email: string,
    inn: string,
    rating: Option<int>,
    familyName: string,
    firstName: string,
    patronymic: string,
    name: string)

  /** Reads the form the way the update does; the cast of the selected value needs a selection. */
  function ReadForm(f: FormFields): (v: FormValues)
    requires f.selectedType.Some?
    ensures v.rating.Some? ==> Int32Min <= v.rating.value <= Int32Max
  {
    FormValues(f.selectedType.value, Trim(f.address), Trim(f.phone), Trim(f.email), Trim(f.inn),
               TryParseInt32(f.rating), Trim(f.familyName), Trim(f.firstName), Trim(f.patronymic), Trim(f.name))
  }

  /** What an accepted form yields when it is read: every stored text is non-empty or valid, and the rating parsed to a non-negative value. */
  lemma AcceptedValues(f: FormFields)
    requires ValidateInput(f).Accepted?
    ensures f.selectedType.Some?
    ensures var v := ReadForm(f);
      && v.familyName != [] && v.firstName != [] && v.patronymic != [] && v.name != []
      && v.address != [] && v.phone != []
      && IsValidInn(v.inn) && (v.email == [] || IsValidEmail(v.email))
      && v.rating.Some? && v.rating.value >= 0
  {
    AcceptedTexts(f);
    AcceptedInn(f);
    AcceptedRating(f);
    AcceptedEmail(f);
  }

  /**
   * Writes the values into the partner: the type, address, phone, e-mail and
   * INN always, the rate only when the rating parsed, and the names into the
   * existing director and partner-name records or into new ones when there are
   * none. The partner's own id and its two name ids are not touched.
   */
  method StoreValues(partner: PartnersInfo, v: FormValues)
    modifies partner, partner.directorNames, partner.partnerNames
    ensures partner.idPartnerType == v.typeId
    ensures partner.jurAddress == v.address && partner.phoneNumber == v.phone
    ensures partner.email == v.email && partner.inn == v.inn
    ensures v.rating.Some? ==> partner.rate == v.rating.value
    ensures v.rating.None? ==> partner.rate == old(partner.rate)
    ensures partner.id == old(partner.id)
    ensures partner.idPartnerName == old(partner.idPartnerName) && partner.idDirectorName == old(partner.idDirectorName)
    ensures partner.directorNames != null && partner.partnerNames != null
    ensures partner.directorNames.familyName == v.familyName
    ensures partner.directorNames.name == v.firstName
    ensures partner.directorNames.patronymic == v.patronymic
    ensures partner.partnerNames.name == v.name
    ensures old(partner.directorNames) != null ==>
      partner.directorNames == old(partner.directorNames) && partner.directorNames.id == old(partner.directorNames.id)
    ensures old(partner.directorNames) == null ==> fresh(partner.directorNames) && partner.directorNames.id == 0
    ensures old(partner.partnerNames) != null ==>
      partner.partnerNames == old(partner.partnerNames) && partner.partnerNames.id == old(partner.partnerNames.id)
    ensures old(partner.partnerNames) == null ==> fresh(partner.partnerNames) && partner.partnerNames.id == 0
  {
    partner.idPartnerType := v.typeId;
    partner.jurAddress, partner.phoneNumber, partner.email, partner.inn := v.address, v.phone, v.email, v.inn;
    if v.rating.Some? {
      partner.rate := v.rating.value;
    }
    StoreDirector(partner, v.familyName, v.firstName, v.patronymic);
    StorePartnerName(partner, v.name);
  }

  /** The director part of the update: edits the partner's director record, or creates one when there is none. */
  method StoreDirector(partner: PartnersInfo, familyName: string, firstName: string, patronymic: string)
    modifies partner`directorNames, partner.directorNames
    ensures partner.directorNames != null
    ensures partner.directorNames.familyName == familyName
    ensures partner.directorNames.name == firstName
    ensures partner.directorNames.patronymic == patronymic
    ensures old(partner.directorNames) != null ==>
      partner.directorNames == old(partner.directorNames) && partner.directorNames.id == old(partner.directorNames.id)
    ensures old(partner.directorNames) == null ==> fresh(partner.directorNames) && partner.directorNames.id == 0
  {
    if partner.directorNames == null {
      partner.directorNames := new DirectorNames(familyName, firstName, patronymic);
    } else {
      partner.directorNames.familyName := familyName;
      partner.directorNames.name := firstName;
      partner.directorNames.patronymic := patronymic;
    }
  }

  /** The name part of the update: edits the partner's name record, or creates one when there is none. */
  method StorePartnerName(partner: PartnersInfo, name: string)
    modifies partner`partnerNames, partner.partnerNames
    ensures partner.partnerNames != null && partner.partnerNames.name == name
    ensures old(partner.partnerNames) != null ==>
      partner.partnerNames == old(partner.partnerNames) && partner.partnerNames.id == old(partner.partnerNames.id)
    ensures old(partner.partnerNames) == null ==> fresh(partner.partnerNames) && partner.partnerNames.id == 0
  {
    if partner.partnerNames == null {
      partner.partnerNames := new PartnerNames(name);
    } else {
      partner.partnerNames.name := name;
    }
  }

  /**
   * The update of the partner from the form: the stored values are those the
   * form holds, trimmed, and an accepted form leaves the partner complete.
   */
  method UpdatePartnerEntity(partner: PartnersInfo, f: FormFields)
    requires f.selectedType.Some?
    modifies partner, partner.directorNames, partner.partnerNames
    ensures partner.idPartnerType == f.selectedType.value
    ensures partner.jurAddress == Trim(f.address) && partner.phoneNumber == Trim(f.phone)
    ensures partner.email == Trim(f.email) && partner.inn == Trim(f.inn)
    ensures TryParseInt32(f.rating).Some? ==> partner.rate == TryParseInt32(f.rating).value
    ensures TryParseInt32(f.rating).None? ==> partner.rate == old(partner.rate)
    ensures partner.id == old(partner.id)
    ensures partner.idPartnerName == old(partner.idPartnerName) && partner.idDirectorName == old(partner.idDirectorName)
    ensures partner.directorNames != null && partner.partnerNames != null
    ensures partner.directorNames.familyName == Trim(f.familyName)
    ensures partner.directorNames.name == Trim(f.firstName)
    ensures partner.directorNames.patronymic == Trim(f.patronymic)
    ensures partner.partnerNames.name == Trim(f.name)
    ensures old(partner.directorNames) != null ==>
      partner.directorNames == old(partner.directorNames) && partner.directorNames.id == old(partner.directorNames.id)
    ensures old(partner.directorNames) == null ==> fresh(partner.directorNames) && partner.directorNames.id == 0
    ensures old(partner.partnerNames) != null ==>
      partner.partnerNames == old(partner.partnerNames) && partner.partnerNames.id == old(partner.partnerNames.id)
    ensures old(partner.partnerNames) == null ==> fresh(partner.partnerNames) && partner.partnerNames.id == 0
    ensures ValidateInput(f).Accepted? ==> partner.Complete()
  {
    var v := ReadForm(f);
    StoreValues(partner, v);
    if ValidateInput(f).Accepted? {
      AcceptedValues(f);
    }
  }
}
