/** The entry wizard of components/EntryForm.tsx: four steps over one worksheet. The
    component's state hooks are the fields of class EntryForm; each handler is a method that
    overwrites some of them, computing the new values with the functions of module Worksheet. */
module Entry {

  import opened Types
  import opened Worksheet

  /** EntryStep. */
  datatype Step = WelcomeStep | CategoryStep | WorksheetStep | SummaryStep

  /** How the recognition callback ends: with the service's answer (possibly no result), or
      with an exception thrown inside the callback, which nothing catches. */
  datatype Recognition = Recognised(result: Option<ParseResult>) | Threw

  /** The welcome screen's greeting for the hour of the day. */
  function Greeting(hour: int): (g: string)
    ensures g == "早上好" <==> hour < 12
    ensures g == "下午好" <==> 12 <= hour < 18
    ensures g == "晚上好" <==> 18 <= hour
  {
    if hour >= 18 then "晚上好" else if hour >= 12 then "下午好" else "早上好"
  }

  class EntryForm {
    var step: Step
    var selectedCategory: Category
    var supplier: string
    var notes: string
    var items: seq<Item>
    var isAnalyzing: bool

    /** In this model the summary step is only reached with at least one named row, and no
        later handler drops a named row, so a confirmed log has at least one row. */
    ghost predicate Valid()
      reads this
    {
      step == SummaryStep ==> |Named(items)| > 0
    }

    /** The editable worksheet as one value. */
    function Current(): Sheet
      reads this
    {
      Sheet(supplier, notes, items)
    }

    constructor ()
      ensures Valid()
      ensures step == WelcomeStep && selectedCategory == Meat
      ensures supplier == "" && notes == "" && items == [] && !isAnalyzing
    {
      step := WelcomeStep;
      selectedCategory := Meat;
      supplier := "";
      notes := "";
      items := [];
      isAnalyzing := false;
    }

    /** The start button of the welcome screen. */
    method Start()
      requires Valid() && step == WelcomeStep
      modifies this`step
      ensures Valid() && step == CategoryStep
    {
      step := CategoryStep;
    }

    /** The back button of the category screen sets the step it is already on. */
    method BackFromCategory()
      requires Valid() && step == CategoryStep
      modifies this`step
      ensures Valid() && step == CategoryStep
    {
      step := CategoryStep;
    }

    /** handleCategorySelect: the worksheet is overwritten by the category's seed, whatever it
        held before, and the wizard moves to the worksheet. */
    method SelectCategory(cat: Category)
      requires Valid() && step == CategoryStep
      modifies this`selectedCategory, this`supplier, this`notes, this`items, this`step
      ensures Valid()
      ensures selectedCategory == cat && step == WorksheetStep
      ensures Current() == Seed(cat)
      ensures |items| >= 1 && Consistent(items)
    {
      selectedCategory := cat;
      var seed := Seed(cat);
      supplier := seed.supplier;
      notes := seed.notes;
      items := seed.items;
      step := WorksheetStep;
    }

    method SetSupplier(value: string)
      requires Valid() && step == WorksheetStep
      modifies this`supplier
      ensures Valid() && supplier == value
    {
      supplier := value;
    }

    method SetNotes(value: string)
      requires Valid() && step == WorksheetStep
      modifies this`notes
      ensures Valid() && notes == value
    {
      notes := value;
    }

    /** handleItemChange. */
    method ChangeItem(index: nat, field: Field, value: string)
      requires Valid() && step == WorksheetStep && index < |items|
      modifies this`items
      ensures Valid()
      ensures items == Worksheet.ChangeItem(old(items), index, field, value)
      ensures old(Consistent(items)) ==> Consistent(items)
    {
      if Consistent(items) {
        ChangeItemKeepsConsistent(items, index, field, value);
      }
      items := Worksheet.ChangeItem(items, index, field, value);
    }

    /** addNewRow. */
    method AddRow()
      requires Valid() && step == WorksheetStep
      modifies this`items
      ensures Valid()
      ensures items == old(items) + [BlankRow]
      ensures old(Consistent(items)) ==> Consistent(items)
    {
      items := items + [BlankRow];
    }

    /** removeRow: the view offers it only while there are at least two rows. */
    method RemoveRow(index: nat)
      requires Valid() && step == WorksheetStep
      requires index < |items| && |items| > 1
      modifies this`items
      ensures Valid()
      ensures items == old(items[..index] + items[index + 1..])
      ensures |items| == old(|items|) - 1 >= 1
      ensures old(Consistent(items)) ==> Consistent(items)
    {
      if Consistent(items) {
        DropIndexKeepsConsistent(items, index);
      }
      items := DropIndex(items, index);
    }

    /** A picture was chosen: the recognition starts. */
    method BeginRecognition()
      requires Valid() && step == WorksheetStep
      modifies this`isAnalyzing
      ensures Valid() && isAnalyzing
    {
      isAnalyzing := true;
    }

    /** The recognition callback, applied as one step to the current worksheet: a result is
        merged, no result changes nothing, and either way the flag is cleared; an exception
        thrown inside the callback leaves everything as it was, the flag included. */
    method FinishRecognition(outcome: Recognition)
      requires Valid()
      modifies this`supplier, this`notes, this`items, this`isAnalyzing
      ensures Valid()
      ensures outcome.Recognised? && outcome.result.Some? ==> Current() == Merge(old(Current()), outcome.result.value)
      ensures outcome.Recognised? && outcome.result.None? ==> Current() == old(Current())
      ensures outcome.Recognised? ==> !isAnalyzing
      ensures outcome.Threw? ==> Current() == old(Current()) && isAnalyzing == old(isAnalyzing)
    {
      match outcome {
        case Threw =>
        case Recognised(result) =>
          if result.Some? {
            MergeKeepsSubmittable(Current(), result.value);
            var merged := Merge(Current(), result.value);
            items := merged.items;
            supplier := merged.supplier;
            notes := merged.notes;
          }
          isAnalyzing := false;
      }
    }

    /** handleWorksheetSubmit: the summary is shown only when some row has a non-blank name;
        otherwise the wizard stays on the worksheet. */
    method SubmitWorksheet() returns (accepted: bool)
      requires Valid() && step == WorksheetStep
      modifies this`step
      ensures Valid()
      ensures accepted <==> exists k :: 0 <= k < |items| && IsNamed(items[k])
      ensures step == (if accepted then SummaryStep else WorksheetStep)
    {
      CanSubmitIff(items);
      accepted := |Named(items)| > 0;
      if accepted {
        step := SummaryStep;
      }
    }

    /** The back button of the worksheet screen; the worksheet itself is kept. */
    method BackFromWorksheet()
      requires Valid() && step == WorksheetStep
      modifies this`step
      ensures Valid() && step == CategoryStep
    {
      step := CategoryStep;
    }

    /** The back button of the summary screen; the worksheet itself is kept. */
    method BackFromSummary()
      requires Valid() && step == SummaryStep
      modifies this`step
      ensures Valid() && step == WorksheetStep
    {
      step := WorksheetStep;
    }

    /** handleSummaryConfirm: the log handed to the caller, with the confirmation time `now`.
        The form's state does not change. */
    method ConfirmSummary(now: string) returns (draft: LogDraft)
      requires Valid() && step == SummaryStep
      ensures draft == Assemble(Current(), selectedCategory, now)
      ensures |draft.items| >= 1
      ensures draft.totalCost == GrandTotal(items)
    {
      draft := Assemble(Current(), selectedCategory, now);
    }
  }
}
