/**
 * The categories page: its in-memory filter, and the modal whose open, close
 * and submit handlers update component state and dispatch to the categories
 * slice.
 */
module CategoriesPage {
  import opened Wrappers
  import opened Sequences
  import opened Records
  import opened Requests
  import opened ListView
  import opened ResourceSlice

  /** The two tests of `filteredCategories`, both of which must pass. */
  predicate CategoryPasses(c: Category, term: string, statusFilter: string) {
    SearchMatches(c.title, term) && StatusMatches(statusFilter, c.isActive)
  }

  /** `filteredCategories`: the categories passing both tests, in list order, each as often as listed. */
  function FilteredCategories(categories: seq<Category>, term: string, statusFilter: string): (r: seq<Category>)
    ensures Subsequence(r, categories)
    ensures forall c :: c in r <==> c in categories && CategoryPasses(c, term, statusFilter)
    ensures forall c ::
      multiset(r)[c] == if CategoryPasses(c, term, statusFilter) then multiset(categories)[c] else 0
  {
    var passes := (c: Category) => CategoryPasses(c, term, statusFilter);
    FilterIsSubsequence(categories, passes);
    Filter(categories, passes)
  }

  /** With an empty term and no status filter, exactly the categories that have a title are listed. */
  lemma EmptyTermListsTitled(categories: seq<Category>, c: Category)
    ensures c in FilteredCategories(categories, "", "") <==> c in categories && c.title.Some?
  {
  }

  /** The values of the category form. */
  datatype CategoryForm = CategoryForm(title: Option<string>, isActive: bool)

  /** The form's default values, which `reset` restores. */
  const DefaultForm: CategoryForm := CategoryForm(Some(""), true)

  class Page {
    const slice: Slice<Category>
    var isModalOpen: bool
    var editing: Option<Category>
    var form: CategoryForm

    /** The page as first rendered: modal closed, nothing being edited, default form. */
    constructor (slice: Slice<Category>)
      ensures this.slice == slice
      ensures !isModalOpen && editing == None && form == DefaultForm
    {
      this.slice := slice;
      isModalOpen := false;
      editing := None;
      form := DefaultForm;
    }

    /** `openModal`: without a category the form is reset to defaults, with one its title and flag are copied. */
    method OpenModal(category: Option<Category>)
      modifies this`editing, this`isModalOpen, this`form
      ensures editing == category && isModalOpen
      ensures category.None? ==> form == DefaultForm
      ensures category.Some? ==> form == CategoryForm(category.value.title, category.value.isActive)
    {
      editing := category;
      isModalOpen := true;
      if category.Some? {
        form := form.(title := category.value.title);
        form := form.(isActive := category.value.isActive);
      } else {
        form := DefaultForm;
      }
    }

    /** `closeModal`: closes, forgets the edited category, resets the form and clears the slice's error. */
    method CloseModal()
      modifies this`isModalOpen, this`editing, this`form, slice`error
      ensures !isModalOpen && editing == None && form == DefaultForm
      ensures slice.error == None
    {
      isModalOpen := false;
      editing := None;
      form := DefaultForm;
      slice.ClearError();
    }

    /**
     * `onSubmit`: dispatches an update of the edited category or a create,
     * the request settles with `outcome`, and only a fulfilled request closes
     * the modal.
     */
    method Submit(data: CategoryForm, outcome: Outcome<Category>) returns (request: Request<CategoryForm>)
      requires slice.resource == Categories && slice.idOf == CategoryId
      modifies this`isModalOpen, this`editing, this`form, slice`isLoading, slice`error, slice`items, slice`selected
      ensures request == if old(editing).Some? then UpdateRequest(old(editing).value.id, data) else CreateRequest(data)
      ensures !slice.isLoading
      ensures outcome.Fulfilled? ==>
        && !isModalOpen && editing == None && form == DefaultForm && slice.error == None
        && slice.items == if old(editing).Some?
                          then Replaced(old(slice.items), CategoryId, outcome.payload)
                          else old(slice.items) + [outcome.payload]
      ensures outcome.Fulfilled? && old(editing).None? ==> slice.selected == old(slice.selected)
      ensures outcome.Fulfilled? && old(editing).Some? ==>
        slice.selected == if old(slice.selected).Some? && old(slice.selected).value.id == outcome.payload.id
                          then Some(outcome.payload)
                          else old(slice.selected)
      ensures outcome.Rejected? ==>
        && isModalOpen == old(isModalOpen) && editing == old(editing) && form == old(form)
        && slice.items == old(slice.items) && slice.selected == old(slice.selected)
        && slice.error == Some(RejectionMessage(outcome.serverError,
                                                Fallback(Categories, if old(editing).Some? then Update else Create)))
    {
      request := if editing.Some? then UpdateRequest(editing.value.id, data) else CreateRequest(data);
      slice.Pending();
      match outcome
      case Fulfilled(saved) =>
        if editing.Some? {
          slice.UpdateFulfilled(saved);
        } else {
          slice.CreateFulfilled(saved);
          assert slice.items == old(slice.items) + [saved];
        }
        CloseModal();
      case Rejected(serverError) =>
        slice.Rejected(if editing.Some? then Update else Create, serverError);
    }
  }
}
