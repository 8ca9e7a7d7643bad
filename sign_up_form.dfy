/** The stylist sign-up form (frontend/src/partials/StylistSignUpForm.jsx): its state, the
    handlers that edit the list of services, the required-field check and what a submission sends. */
module SignUpForm {
  import opened Wrappers
  import opened Sequences
  import opened Splice
  import opened IconFileName

  /** One `{ type, price }` entry of the services list. Entries are objects: `handleServiceChange`
      writes a field of the entry itself, not of a copy. Both fields hold the string value of a
      `<select>` or a number `<input>`, so "empty" is the only falsy value they can take. */
  class ServiceRow {
    var serviceType: string
    var price: string

    /** The blank entry `{ type: '', price: '' }` (lines 15 and 24). */
    constructor Blank()
      ensures serviceType == "" && price == ""
    {
      serviceType := "";
      price := "";
    }
  }

  /** The two fields of an entry that the select and the price input write. */
  datatype ServiceField = TypeField | PriceField

  /** The chosen icon file; only its name takes part in the logic. */
  datatype IconFile = IconFile(name: string)

  /** The `formData` state (lines 10-18). `icon` is `None` for the initial `null` and for a file
      input left without a file. */
  datatype FormData = FormData(
    firstName: string,
    lastName: string,
    description: string,
    icon: Option<IconFile>,
    services: seq<ServiceRow>,
    email: string,
    password: string)

  // ---------------------------------------------------------------------------------------
  // Required-field validation (lines 48-63)

  /** The entries of `requiredFields`, in their declared order. */
  datatype RequiredField = FirstNameField | LastNameField | ServicesField | EmailField | PasswordField

  const RequiredFields: seq<RequiredField> :=
    [FirstNameField, LastNameField, ServicesField, EmailField, PasswordField]

  /** The `label` of each required field. */
  function Label(field: RequiredField): string {
    match field
    case FirstNameField => "First Name"
    case LastNameField => "Last Name"
    case ServicesField => "Services"
    case EmailField => "Email"
    case PasswordField => "Password"
  }

  /** The labels of `requiredFields`, in order. */
  const RequiredLabels: seq<string> := ["First Name", "Last Name", "Services", "Email", "Password"]

  /** `services.every(service => service.type && service.price)`. */
  function AllRowsFilled(rows: seq<ServiceRow>): (filled: bool)
    reads rows
    ensures filled <==> forall i :: 0 <= i < |rows| ==> rows[i].serviceType != "" && rows[i].price != ""
  {
    |rows| == 0 || (rows[0].serviceType != "" && rows[0].price != "" && AllRowsFilled(rows[1..]))
  }

  /** The predicate given to `filter`: the services check of lines 57-60, and `!formData[name]`
      for the four string fields. */
  function IsMissing(form: FormData, field: RequiredField): bool
    reads form.services
  {
    match field
    case FirstNameField => form.firstName == ""
    case LastNameField => form.lastName == ""
    case ServicesField => |form.services| == 0 || !AllRowsFilled(form.services)
    case EmailField => form.email == ""
    case PasswordField => form.password == ""
  }

  /** `fields.filter(field => IsMissing(form, field))`: exactly the missing fields, in their order. */
  function FilterMissing(form: FormData, fields: seq<RequiredField>): (missing: seq<RequiredField>)
    reads form.services
    ensures forall f :: f in missing <==> f in fields && IsMissing(form, f)
    ensures IsSubsequence(missing, fields)
  {
    if |fields| == 0 then []
    else
      var rest := FilterMissing(form, fields[1..]);
      assert fields == [fields[0]] + fields[1..];
      if IsMissing(form, fields[0]) then
        [fields[0]] + rest
      else
        SubsequenceOfTail(rest, fields);
        rest
  }

  /** `missingFields` of `handleFormSubmit`. */
  function MissingFields(form: FormData): seq<RequiredField>
    reads form.services
  {
    FilterMissing(form, RequiredFields)
  }

  /** `fields.map(field => field.label)`. */
  function Labels(fields: seq<RequiredField>): (labels: seq<string>)
    ensures |labels| == |fields|
    ensures forall i :: 0 <= i < |fields| ==> labels[i] == Label(fields[i])
  {
    if |fields| == 0 then [] else [Label(fields[0])] + Labels(fields[1..])
  }

  /** The labels the alert lists (line 66). */
  function MissingFieldLabels(form: FormData): seq<string>
    reads form.services
  {
    Labels(MissingFields(form))
  }

  /** The services are reported when the list is empty or some entry lacks a type or a price. */
  predicate ServicesIncomplete(form: FormData)
    reads form.services
  {
    || |form.services| == 0
    || exists i :: 0 <= i < |form.services| && (form.services[i].serviceType == "" || form.services[i].price == "")
  }

  /** The services check of lines 57-60 is ServicesIncomplete. */
  lemma ServicesMissingIff(form: FormData)
    ensures IsMissing(form, ServicesField) <==> ServicesIncomplete(form)
  {
  }

  /** `[field]` when `missing` holds, `[]` otherwise. */
  function IfMissing(missing: bool, field: RequiredField): seq<RequiredField> {
    if missing then [field] else []
  }

  /** The missing fields, written out: each required field in its place exactly when it is empty. */
  lemma MissingFieldsExact(form: FormData)
    ensures MissingFields(form)
      == IfMissing(form.firstName == "", FirstNameField)
       + (IfMissing(form.lastName == "", LastNameField)
       + (IfMissing(ServicesIncomplete(form), ServicesField)
       + (IfMissing(form.email == "", EmailField)
       + IfMissing(form.password == "", PasswordField))))
  {
    ServicesMissingIff(form);
    var f0 := RequiredFields;
    var f1 := f0[1..];
    var f2 := f1[1..];
    var f3 := f2[1..];
    var f4 := f3[1..];
    assert f0[0] == FirstNameField && f1[0] == LastNameField && f2[0] == ServicesField;
    assert f3[0] == EmailField && f4[0] == PasswordField && |f4| == 1;
    var i0 := IfMissing(form.firstName == "", FirstNameField);
    var i1 := IfMissing(form.lastName == "", LastNameField);
    var i2 := IfMissing(ServicesIncomplete(form), ServicesField);
    var i3 := IfMissing(form.email == "", EmailField);
    var i4 := IfMissing(form.password == "", PasswordField);
    FilterCons(form, f4);
    assert FilterMissing(form, f4[1..]) == [];
    assert FilterMissing(form, f4) == i4;
    FilterCons(form, f3);
    assert FilterMissing(form, f3) == i3 + i4;
    FilterCons(form, f2);
    assert FilterMissing(form, f2) == i2 + (i3 + i4);
    FilterCons(form, f1);
    assert FilterMissing(form, f1) == i1 + (i2 + (i3 + i4));
    FilterCons(form, f0);
  }

  /** One step of the filter. */
  lemma FilterCons(form: FormData, fields: seq<RequiredField>)
    requires |fields| > 0
    ensures FilterMissing(form, fields)
      == IfMissing(IsMissing(form, fields[0]), fields[0]) + FilterMissing(form, fields[1..])
  {
  }

  /** A label is among the labels of a list exactly when its field is in the list. */
  lemma LabelIn(fields: seq<RequiredField>, f: RequiredField)
    ensures Label(f) in Labels(fields) <==> f in fields
  {
  }

  /** A required field is among the missing fields exactly when its check fails. */
  lemma MissingFieldIff(form: FormData, f: RequiredField)
    ensures f in MissingFields(form) <==> IsMissing(form, f)
  {
  }

  /** A required field's label is reported exactly when its check fails. */
  lemma MissingLabelIff(form: FormData, f: RequiredField)
    ensures Label(f) in MissingFieldLabels(form) <==> IsMissing(form, f)
  {
    MissingFieldIff(form, f);
    LabelIn(MissingFields(form), f);
  }

  /** Only the labels of required fields are ever reported. */
  lemma MissingLabelsListed(form: FormData)
    ensures forall l :: l in MissingFieldLabels(form) ==> l in RequiredLabels
  {
  }

  /** Each label is reported exactly when its field is empty (both directions), and no other
      label is ever reported: `description` and `icon` are not required. */
  lemma MissingLabelsCharacterised(form: FormData)
    ensures var labels := MissingFieldLabels(form);
      && ("First Name" in labels <==> form.firstName == "")
      && ("Last Name" in labels <==> form.lastName == "")
      && ("Services" in labels <==> ServicesIncomplete(form))
      && ("Email" in labels <==> form.email == "")
      && ("Password" in labels <==> form.password == "")
      && (forall l :: l in labels ==> l in RequiredLabels)
  {
    ServicesMissingIff(form);
    MissingLabelIff(form, FirstNameField);
    MissingLabelIff(form, LastNameField);
    MissingLabelIff(form, ServicesField);
    MissingLabelIff(form, EmailField);
    MissingLabelIff(form, PasswordField);
    MissingLabelsListed(form);
  }

  /** The labels of `requiredFields` are RequiredLabels. */
  lemma RequiredFieldLabels()
    ensures Labels(RequiredFields) == RequiredLabels
  {
  }

  /** The reported labels follow the order First Name, Last Name, Services, Email, Password:
      they form a subsequence of it and none repeats. */
  lemma MissingLabelsOrdered(form: FormData)
    ensures IsSubsequence(MissingFieldLabels(form), RequiredLabels)
    ensures Distinct(MissingFieldLabels(form))
  {
    RequiredFieldLabels();
    LabelsOfSubsequence(MissingFields(form), RequiredFields);
    SubsequenceDistinct(MissingFieldLabels(form), RequiredLabels);
  }

  /** Relabelling keeps a subsequence a subsequence. */
  lemma {:induction false} LabelsOfSubsequence(a: seq<RequiredField>, b: seq<RequiredField>)
    requires IsSubsequence(a, b)
    ensures IsSubsequence(Labels(a), Labels(b))
    decreases |b|
  {
    if |a| > 0 {
      if a[0] == b[0] {
        LabelsOfSubsequence(a[1..], b[1..]);
        assert Labels(a)[1..] == Labels(a[1..]);
        assert Labels(b)[1..] == Labels(b[1..]);
      } else {
        LabelsOfSubsequence(a, b[1..]);
        assert Labels(b)[1..] == Labels(b[1..]);
        LabelDistinguishes(a[0], b[0]);
        SubsequenceOfTail(Labels(a), Labels(b));
      }
    }
  }

  /** Different fields have different labels. */
  lemma LabelDistinguishes(f: RequiredField, g: RequiredField)
    requires f != g
    ensures Label(f) != Label(g)
  {
  }

  /** The description and the icon never affect validation. */
  lemma MissingFieldsIgnoreOptional(form: FormData, description: string, icon: Option<IconFile>)
    ensures MissingFields(form.(description := description, icon := icon)) == MissingFields(form)
  {
    MissingFieldsExact(form);
    MissingFieldsExact(form.(description := description, icon := icon));
  }

  // ---------------------------------------------------------------------------------------
  // Submission (lines 44-98)

  /** What `createBlob` is asked to record for the icon; the owner id comes back from the server
      and is not part of this model. */
  datatype BlobRequest = BlobRequest(blobType: string, fileName: string)

  /** How a submission ends, and what it sends when it gets that far. */
  datatype SubmitOutcome =
    /** The alert of lines 66-67 with these labels; nothing is uploaded or sent. */
    | Rejected(missingLabels: seq<string>)
    /** `formData.icon.name` on line 72 throws when no icon was chosen; nothing is uploaded or sent. */
    | IconNameError
    /** The icon goes to `storagePath`, `signUpStylist` gets `signUpPayload` and `createBlob` gets `blob`. */
    | Submitted(storagePath: string, signUpPayload: FormData, blob: BlobRequest)

  /** A text input of the form, named as its `name` attribute. */
  datatype TextInput = FirstNameInput | LastNameInput | DescriptionInput | EmailInput | PasswordInput

  /** The change events `handleInputChange` receives: text inputs carry their value, the file
      input carries `files[0]`. */
  datatype InputEvent = TextChange(input: TextInput, value: string) | FileChange(file: Option<IconFile>)

  /** `formData[name]` for a text input. */
  function TextValue(form: FormData, input: TextInput): string {
    match input
    case FirstNameInput => form.firstName
    case LastNameInput => form.lastName
    case DescriptionInput => form.description
    case EmailInput => form.email
    case PasswordInput => form.password
  }

  /** The component's state and its handlers. `formData` is replaced as a whole on every update,
      as `setFormData` does; the entry objects it refers to are shared from one state to the next. */
  class StylistSignUpForm {
    var formData: FormData

    /** Every entry is its own object: each one was made by its own `{ type: '', price: '' }`. */
    ghost predicate Valid()
      reads this
    {
      Distinct(formData.services)
    }

    /** The initial state of lines 10-18: empty strings, no icon, one blank entry. */
    constructor ()
      ensures Valid()
      ensures formData.firstName == "" && formData.lastName == "" && formData.description == ""
      ensures formData.icon == None && formData.email == "" && formData.password == ""
      ensures |formData.services| == 1 && fresh(formData.services[0])
      ensures formData.services[0].serviceType == "" && formData.services[0].price == ""
    {
      var blank := new ServiceRow.Blank();
      formData := FormData("", "", "", None, [blank], "", "");
    }

    /** `addService` (lines 20-26): one new blank entry at the end; the existing entries, their
        contents and every other field stay as they were. */
    method AddService()
      requires Valid()
      modifies this
      ensures Valid()
      ensures |formData.services| == |old(formData.services)| + 1
      ensures formData.services[..|old(formData.services)|] == old(formData.services)
      ensures var added := formData.services[|old(formData.services)|];
        fresh(added) && added.serviceType == "" && added.price == ""
      ensures formData == old(formData).(services := formData.services)
    {
      var blank := new ServiceRow.Blank();
      formData := formData.(services := formData.services + [blank]);
    }

    /** `handleServiceChange` (lines 28-34): only `field` of entry `index` becomes `value`. The
        copied list holds the same entry objects, so the entry of the previous state changes too;
        the other field of that entry, every other entry and every other form field stay as they
        were. An index outside the list makes the JavaScript code throw; the list renders one
        control per entry, so its callers pass only indices of the list. */
    method HandleServiceChange(index: int, field: ServiceField, value: string)
      requires Valid()
      requires 0 <= index < |formData.services|
      modifies this, formData.services[index]
      ensures Valid()
      ensures formData == old(formData)
      ensures field == TypeField ==>
        formData.services[index].serviceType == value && formData.services[index].price == old(formData.services[index].price)
      ensures field == PriceField ==>
        formData.services[index].price == value && formData.services[index].serviceType == old(formData.services[index].serviceType)
      ensures forall j :: 0 <= j < |formData.services| && j != index ==>
        formData.services[j].serviceType == old(formData.services[j].serviceType)
        && formData.services[j].price == old(formData.services[j].price)
    {
      var updatedServices := formData.services;
      var row := updatedServices[index];
      match field
      case TypeField => row.serviceType := value;
      case PriceField => row.price := value;
      formData := formData.(services := updatedServices);
    }

    /** `removeService` (lines 36-42): `splice(index, 1)` on a copy of the list. For an index of
        the list that entry goes and the others keep their order (Splice.RemoveAtIndex); the
        other form fields stay as they were. */
    method RemoveService(index: int)
      requires Valid()
      modifies this
      ensures Valid()
      ensures formData == old(formData).(services := SpliceOne(old(formData.services), index))
      ensures 0 <= index < |old(formData.services)| ==>
        formData.services == old(formData.services)[..index] + old(formData.services)[index + 1..]
    {
      var updatedServices := formData.services;
      SpliceKeepsDistinct(updatedServices, index);
      if 0 <= index < |updatedServices| {
        RemoveAtIndex(updatedServices, index);
      }
      updatedServices := SpliceOne(updatedServices, index);
      formData := formData.(services := updatedServices);
    }

    /** `handleInputChange` (lines 100-106): the named field takes the event's value (the file,
        for the icon input); nothing else changes. */
    method HandleInputChange(event: InputEvent)
      requires Valid()
      modifies this
      ensures Valid()
      ensures formData.services == old(formData.services)
      ensures event.FileChange? ==> formData == old(formData).(icon := event.file)
      ensures event.TextChange? ==>
        && TextValue(formData, event.input) == event.value
        && formData.icon == old(formData.icon)
        && forall other :: other != event.input ==> TextValue(formData, other) == TextValue(old(formData), other)
    {
      match event
      case FileChange(file) =>
        formData := formData.(icon := file);
      case TextChange(input, value) =>
        match input
        case FirstNameInput => formData := formData.(firstName := value);
        case LastNameInput => formData := formData.(lastName := value);
        case DescriptionInput => formData := formData.(description := value);
        case EmailInput => formData := formData.(email := value);
        case PasswordInput => formData := formData.(password := value);
    }

    /** `handleFormSubmit` (lines 44-98), with the clock's `toISOString()` passed in. A form with a
        missing field stops at the alert, before any upload or request. Otherwise line 72 reads the
        icon's name before line 77 checks that an icon exists, so a form without an icon throws
        there; with an icon, the check of line 77 always passes, and the icon is uploaded under
        `icons/` with its timestamped name. `signUpStylist` receives `formData` itself, icon
        included: the `stylist` record that carries `iconPath` is built but never sent. */
    method HandleFormSubmit(isoTimestamp: string) returns (outcome: SubmitOutcome)
      ensures outcome.Rejected? <==> |MissingFieldLabels(formData)| > 0
      ensures outcome.Rejected? ==> outcome.missingLabels == MissingFieldLabels(formData)
      ensures outcome.IconNameError? <==> |MissingFieldLabels(formData)| == 0 && formData.icon.None?
      ensures outcome.Submitted? ==>
        && formData.icon.Some?
        && var fileName := FileNameWithTimestamp(formData.icon.value.name, StripTimestamp(isoTimestamp));
        && outcome.storagePath == "icons/" + fileName
        && outcome.signUpPayload == formData
        && outcome.blob == BlobRequest("icon", fileName)
    {
      var missingFieldLabels := MissingFieldLabels(formData);
      if |missingFieldLabels| > 0 {
        return Rejected(missingFieldLabels);
      }
      var timestamp := StripTimestamp(isoTimestamp);
      if formData.icon.None? {
        return IconNameError;
      }
      var fileNameWithTimestamp := FileNameWithTimestamp(formData.icon.value.name, timestamp);
      var iconStoragePath := IconPath(fileNameWithTimestamp);
      outcome := Submitted(iconStoragePath, formData, BlobRequest("icon", fileNameWithTimestamp));
    }
  }

  /** A submitted icon keeps its extension, and its stored name carries none of the timestamp's
      punctuation and starts with the stripped base name. */
  lemma SubmittedFileName(name: string, isoTimestamp: string)
    ensures var timestamp := StripTimestamp(isoTimestamp);
      var fileName := FileNameWithTimestamp(name, timestamp);
      && Extension(fileName) == Extension(name)
      && fileName[..|StripExtension(name)| + 1] == StripExtension(name) + "_"
  {
    var timestamp := StripTimestamp(isoTimestamp);
    StripTimestampCharacters(isoTimestamp);
    assert '.' !in timestamp;
    FileNameKeepsExtension(name, timestamp);
  }
}

/** A client of the form, in the way the page drives it: what the handlers' contracts let a caller
    conclude about a session. */
module SignUpSession {
  import opened Wrappers
  import opened SignUpForm

  /** Two entries, the first filled in: the second one is still blank, so the services are
      reported and nothing is sent. */
  method SubmitWithBlankEntry(iso: string)
  {
    var form := new StylistSignUpForm();
    form.AddService();
    form.HandleServiceChange(0, TypeField, "HAIRCUT");
    form.HandleServiceChange(0, PriceField, "30");
    assert form.formData.services[1].serviceType == "";
    var outcome := form.HandleFormSubmit(iso);
    MissingLabelsCharacterised(form.formData);
    assert "Services" in outcome.missingLabels;
  }

  /** Editing one entry leaves the other alone, and removing the blank one keeps the edited one. */
  method EditThenRemove()
  {
    var form := new StylistSignUpForm();
    var first := form.formData.services[0];
    form.AddService();
    var second := form.formData.services[1];
    form.HandleServiceChange(0, TypeField, "HAIRCUT");
    assert first.serviceType == "HAIRCUT" && second.serviceType == "";
    form.RemoveService(1);
    assert form.formData.services == [first];
    form.HandleInputChange(TextChange(FirstNameInput, "Ada"));
    assert form.formData.services == [first] && form.formData.firstName == "Ada";
    assert first.serviceType == "HAIRCUT";
  }
}
