/** The add-entry screen: pick a category, fill in the form, then save the
    purchase or save it as a favourite template. The storage module is not
    part of this model: a save records the draft handed to it, and whether
    the call threw is a parameter. */
module AddEntry {
  import opened Ledger

  datatype Category = Alcohol | Tobacco | Weed | Other

  datatype Step = ChoosingCategory | FillingForm

  /** The text inputs of the form. */
  datatype Field = AmountSpent | Grams | Source | Kind | Notes

  /** What `Storage.addEntry` receives. The amounts are the field text that
      the screen hands to `parseFloat`. */
  datatype EntryDraft = EntryDraft(
    date: int, amountSpent: string, grams: string, source: string, kind: string, category: Category, notes: string)

  /** What `Storage.addFavorite` receives: the same fields without a date. */
  datatype FavoriteDraft = FavoriteDraft(
    amountSpent: string, grams: string, source: string, kind: string, category: Category, notes: string)

  datatype StorageCall = AddEntryCall(entry: EntryDraft) | AddFavoriteCall(favorite: FavoriteDraft)

  /** How a storage call ended: normally, or by throwing an error with a message. */
  datatype Outcome = Completed | Threw(message: string)

  datatype Alert = Alert(title: string, message: string)

  const RequiredFieldsAlert: Alert := Alert("Error", "Please fill in all required fields")
  const FavoriteSavedAlert: Alert := Alert("Success", "Added to favorites!")
  const FavoritesFullAlert: Alert :=
    Alert("Error", "You can only have up to 6 favorites. Long press a favorite on the dashboard to remove it.")
  const FavoriteFailedAlert: Alert := Alert("Error", "Failed to save favorite")
  const EntryFailedAlert: Alert := Alert("Error", "Failed to save entry")

  /** The message the storage module throws when the favourites are full. */
  const MaxFavoritesMessage: string := "Max favorites reached"

  /** `!amountSpent || !grams || !source || !type` is false: every required
      field holds some text. Notes are not among them. */
  predicate RequiredFilled(amountSpent: string, grams: string, source: string, kind: string) {
    amountSpent != "" && grams != "" && source != "" && kind != ""
  }

  /** The `catch` of `handleSaveFavorite`: only the exact capacity message
      gets the specific alert. */
  function FavoriteFailureAlert(message: string): (a: Alert)
    ensures a == FavoritesFullAlert <==> message == MaxFavoritesMessage
    ensures a == FavoriteFailedAlert <==> message != MaxFavoritesMessage
  {
    if message == MaxFavoritesMessage then FavoritesFullAlert else FavoriteFailedAlert
  }

  datatype Labels = Labels(amount: string, kind: string)

  const GramsLabels: Labels := Labels("Grams (g)", "Type (Strain/Type)")

  /** `getLabels`: per-category captions for the quantity and type inputs;
      Weed and no category at all share the grams captions. */
  function LabelsFor(category: Option<Category>): (l: Labels)
    ensures category == Some(Alcohol) ==> l == Labels("Units (Drinks)", "Type (Beer, Wine, etc.)")
    ensures category == Some(Tobacco) ==> l == Labels("Amount (Packs/Grams)", "Type (Brand)")
    ensures category == Some(Other) ==> l == Labels("Amount", "Type")
    ensures category == Some(Weed) || category == None ==> l == GramsLabels
  {
    match category
    case Some(Alcohol) => Labels("Units (Drinks)", "Type (Beer, Wine, etc.)")
    case Some(Tobacco) => Labels("Amount (Packs/Grams)", "Type (Brand)")
    case Some(Other) => Labels("Amount", "Type")
    case _ => GramsLabels
  }

  /** Two choices show the same captions exactly when they are equal or are
      Weed and no category. */
  lemma LabelsDistinguishCategories(a: Option<Category>, b: Option<Category>)
    ensures LabelsFor(a) == LabelsFor(b) <==>
      a == b || ((a == None || a == Some(Weed)) && (b == None || b == Some(Weed)))
  {
  }

  class AddEntryScreen {
    var category: Option<Category>
    var step: Step
    var amountSpent: string
    var grams: string
    var source: string
    var kind: string
    var notes: string
    /** The chosen instant, as an abstract time value. */
    var date: int
    var showDatePicker: bool
    /** Every draft handed to the storage module, in call order. */
    var storageCalls: seq<StorageCall>
    /** Whether `router.back()` has been called. */
    var navigatedBack: bool

    /** The form is only on screen once a category has been picked. */
    ghost predicate Valid()
      reads this
    {
      step == FillingForm ==> category.Some?
    }

    /** The initial state; `now` is the current time. */
    constructor (now: int)
      ensures Valid()
      ensures category == None && step == ChoosingCategory
      ensures amountSpent == "" && grams == "" && source == "" && kind == "" && notes == ""
      ensures date == now && !showDatePicker
      ensures storageCalls == [] && !navigatedBack
    {
      category := None;
      step := ChoosingCategory;
      amountSpent, grams, source, kind, notes := "", "", "", "", "";
      date := now;
      showDatePicker := false;
      storageCalls := [];
      navigatedBack := false;
    }

    /** `handleCategorySelect`. */
    method SelectCategory(selected: Category)
      requires Valid()
      modifies this
      ensures Valid()
      ensures category == Some(selected) && step == FillingForm
      ensures amountSpent == old(amountSpent) && grams == old(grams) && source == old(source)
      ensures kind == old(kind) && notes == old(notes) && date == old(date)
      ensures showDatePicker == old(showDatePicker)
      ensures storageCalls == old(storageCalls) && navigatedBack == old(navigatedBack)
    {
      category := Some(selected);
      step := FillingForm;
    }

    /** The "Change Category" button: back to the category list, nothing
        else touched (the category and the typed text are kept). */
    method ChangeCategory()
      requires Valid()
      modifies this
      ensures Valid()
      ensures step == ChoosingCategory
      ensures category == old(category)
      ensures amountSpent == old(amountSpent) && grams == old(grams) && source == old(source)
      ensures kind == old(kind) && notes == old(notes) && date == old(date)
      ensures showDatePicker == old(showDatePicker)
      ensures storageCalls == old(storageCalls) && navigatedBack == old(navigatedBack)
    {
      step := ChoosingCategory;
    }

    /** `onChangeText` of one input. */
    method EditField(field: Field, text: string)
      requires Valid()
      modifies this
      ensures Valid()
      ensures amountSpent == (if field == AmountSpent then text else old(amountSpent))
      ensures grams == (if field == Grams then text else old(grams))
      ensures source == (if field == Source then text else old(source))
      ensures kind == (if field == Kind then text else old(kind))
      ensures notes == (if field == Notes then text else old(notes))
      ensures category == old(category) && step == old(step) && date == old(date)
      ensures showDatePicker == old(showDatePicker)
      ensures storageCalls == old(storageCalls) && navigatedBack == old(navigatedBack)
    {
      match field
      case AmountSpent => amountSpent := text;
      case Grams => grams := text;
      case Source => source := text;
      case Kind => kind := text;
      case Notes => notes := text;
    }

    /** The date button: shows the picker. */
    method OpenDatePicker()
      requires Valid()
      modifies this
      ensures Valid()
      ensures showDatePicker
      ensures category == old(category) && step == old(step) && date == old(date)
      ensures amountSpent == old(amountSpent) && grams == old(grams) && source == old(source)
      ensures kind == old(kind) && notes == old(notes)
      ensures storageCalls == old(storageCalls) && navigatedBack == old(navigatedBack)
    {
      showDatePicker := true;
    }

    /** `onChangeDate`: a dismissed picker reports no date and the previous
        one stays; the picker stays open only on iOS. */
    method ChangeDate(selectedDate: Option<int>, isIOS: bool)
      requires Valid()
      modifies this
      ensures Valid()
      ensures date == (if selectedDate.Some? then selectedDate.value else old(date))
      ensures showDatePicker == isIOS
      ensures category == old(category) && step == old(step)
      ensures amountSpent == old(amountSpent) && grams == old(grams) && source == old(source)
      ensures kind == old(kind) && notes == old(notes)
      ensures storageCalls == old(storageCalls) && navigatedBack == old(navigatedBack)
    {
      var currentDate := if selectedDate.Some? then selectedDate.value else date;
      showDatePicker := isIOS;
      date := currentDate;
    }

    /** `handleSaveFavorite`: refuses while a required field is empty;
        otherwise hands the template to storage and reports how it went. */
    method SaveFavorite(outcome: Outcome) returns (alert: Alert)
      requires Valid() && step == FillingForm
      modifies this
      ensures Valid()
      ensures !RequiredFilled(old(amountSpent), old(grams), old(source), old(kind)) ==>
        storageCalls == old(storageCalls) && alert == RequiredFieldsAlert
      ensures RequiredFilled(old(amountSpent), old(grams), old(source), old(kind)) ==>
        storageCalls == old(storageCalls) + [AddFavoriteCall(FavoriteDraft(
          amountSpent, grams, source, kind, old(category).value, notes))] &&
        alert == (if outcome.Completed? then FavoriteSavedAlert else FavoriteFailureAlert(outcome.message))
      ensures category == old(category) && step == old(step) && date == old(date)
      ensures amountSpent == old(amountSpent) && grams == old(grams) && source == old(source)
      ensures kind == old(kind) && notes == old(notes)
      ensures showDatePicker == old(showDatePicker) && navigatedBack == old(navigatedBack)
    {
      if !RequiredFilled(amountSpent, grams, source, kind) {
        return RequiredFieldsAlert;
      }
      storageCalls := storageCalls + [AddFavoriteCall(FavoriteDraft(
        amountSpent, grams, source, kind, category.value, notes))];
      if outcome.Completed? {
        alert := FavoriteSavedAlert;
      } else if outcome.message == MaxFavoritesMessage {
        alert := FavoritesFullAlert;
      } else {
        alert := FavoriteFailedAlert;
      }
    }

    /** `handleSave`: refuses while a required field is empty; otherwise
        hands the entry to storage, then leaves the screen, or shows an
        error when storage threw. */
    method Save(outcome: Outcome) returns (alert: Option<Alert>)
      requires Valid() && step == FillingForm
      modifies this
      ensures Valid()
      ensures !RequiredFilled(old(amountSpent), old(grams), old(source), old(kind)) ==>
        storageCalls == old(storageCalls) && alert == Some(RequiredFieldsAlert) &&
        navigatedBack == old(navigatedBack)
      ensures RequiredFilled(old(amountSpent), old(grams), old(source), old(kind)) ==>
        storageCalls == old(storageCalls) + [AddEntryCall(EntryDraft(
          date, amountSpent, grams, source, kind, old(category).value, notes))] &&
        (outcome.Completed? ==> alert == None && navigatedBack) &&
        (outcome.Threw? ==> alert == Some(EntryFailedAlert) && navigatedBack == old(navigatedBack))
      ensures category == old(category) && step == old(step) && date == old(date)
      ensures amountSpent == old(amountSpent) && grams == old(grams) && source == old(source)
      ensures kind == old(kind) && notes == old(notes)
      ensures showDatePicker == old(showDatePicker)
    {
      if !RequiredFilled(amountSpent, grams, source, kind) {
        return Some(RequiredFieldsAlert);
      }
      storageCalls := storageCalls + [AddEntryCall(EntryDraft(
        date, amountSpent, grams, source, kind, category.value, notes))];
      if outcome.Completed? {
        navigatedBack := true;
        alert := None;
      } else {
        alert := Some(EntryFailedAlert);
      }
    }
  }

  /** A user who picks a category, types the four required fields and saves
      hands storage exactly that draft, dated by the picker or by the
      screen's opening time, whatever the notes say. */
  method SaveFlow(now: int, c: Category, amount: string, grams: string, source: string, kind: string,
                  notes: string, picked: Option<int>) returns (calls: seq<StorageCall>)
    requires RequiredFilled(amount, grams, source, kind)
    ensures calls == [AddEntryCall(EntryDraft(if picked.Some? then picked.value else now,
                                              amount, grams, source, kind, c, notes))]
  {
    var screen := new AddEntryScreen(now);
    screen.SelectCategory(c);
    screen.EditField(AmountSpent, amount);
    screen.EditField(Grams, grams);
    screen.EditField(Source, source);
    screen.EditField(Kind, kind);
    screen.EditField(Notes, notes);
    screen.OpenDatePicker();
    screen.ChangeDate(picked, false);
    var alert := screen.Save(Completed);
    calls := screen.storageCalls;
  }

  /** With any required field left empty, neither save button reaches the
      storage module, however the form got there. */
  method GuardFlow(now: int, c: Category, amount: string, grams: string, source: string, kind: string,
                   notes: string, outcome: Outcome) returns (calls: seq<StorageCall>, a1: Option<Alert>, a2: Alert)
    requires !RequiredFilled(amount, grams, source, kind)
    ensures calls == [] && a1 == Some(RequiredFieldsAlert) && a2 == RequiredFieldsAlert
  {
    var screen := new AddEntryScreen(now);
    screen.SelectCategory(c);
    screen.EditField(AmountSpent, amount);
    screen.EditField(Grams, grams);
    screen.EditField(Source, source);
    screen.EditField(Kind, kind);
    screen.EditField(Notes, notes);
    a1 := screen.Save(outcome);
    a2 := screen.SaveFavorite(outcome);
    calls := screen.storageCalls;
  }
}
