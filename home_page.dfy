/** The page (components/HomePage.tsx): three dialog flags, the record shared by
    the edit and delete dialogs, and the search text, updated by one handler per
    event. */
module Home {
  import opened Wrappers
  import opened FoodApi
  import opened Effects

  /** The props the page hands its children. */
  datatype ChildProps = ChildProps(
    addOpen: bool,
    editOpen: bool,
    editFood: Option<Food>,
    deleteOpen: bool,
    deleteFood: Option<Food>,
    heroQuery: string,
    listQuery: string,
    notify: bool)

  class HomePage {
    var isAddModalOpen: bool
    var isEditModalOpen: bool
    var isDeleteModalOpen: bool
    var selectedFood: Option<Food>
    var searchQuery: string

    /** An open edit or delete dialog always has a record to show. */
    predicate Valid()
      reads this
    {
      (isEditModalOpen || isDeleteModalOpen) ==> selectedFood.Some?
    }

    constructor()
      ensures !isAddModalOpen && !isEditModalOpen && !isDeleteModalOpen
      ensures selectedFood == None && searchQuery == ""
      ensures Valid()
    {
      isAddModalOpen := false;
      isEditModalOpen := false;
      isDeleteModalOpen := false;
      selectedFood := None;
      searchQuery := "";
    }

    /** `handleEditFood`, a card's edit action. */
    method HandleEditFood(food: Food)
      requires Valid()
      modifies this
      ensures selectedFood == Some(food) && isEditModalOpen
      ensures isAddModalOpen == old(isAddModalOpen) && isDeleteModalOpen == old(isDeleteModalOpen)
      ensures searchQuery == old(searchQuery)
      ensures Valid()
    {
      selectedFood := Some(food);
      isEditModalOpen := true;
    }

    /** `handleDeleteFood`, a card's delete action. */
    method HandleDeleteFood(food: Food)
      requires Valid()
      modifies this
      ensures selectedFood == Some(food) && isDeleteModalOpen
      ensures isAddModalOpen == old(isAddModalOpen) && isEditModalOpen == old(isEditModalOpen)
      ensures searchQuery == old(searchQuery)
      ensures Valid()
    {
      selectedFood := Some(food);
      isDeleteModalOpen := true;
    }

    /** The header's add action: opens the add dialog and nothing else. */
    method OpenAdd()
      requires Valid()
      modifies this
      ensures isAddModalOpen
      ensures isEditModalOpen == old(isEditModalOpen) && isDeleteModalOpen == old(isDeleteModalOpen)
      ensures selectedFood == old(selectedFood) && searchQuery == old(searchQuery)
      ensures Valid()
    {
      isAddModalOpen := true;
    }

    /** The add dialog's `onClose`. */
    method CloseAdd()
      requires Valid()
      modifies this
      ensures !isAddModalOpen
      ensures isEditModalOpen == old(isEditModalOpen) && isDeleteModalOpen == old(isDeleteModalOpen)
      ensures selectedFood == old(selectedFood) && searchQuery == old(searchQuery)
      ensures Valid()
    {
      isAddModalOpen := false;
    }

    /** The edit dialog's `onClose`: the record stays selected. */
    method CloseEdit()
      requires Valid()
      modifies this
      ensures !isEditModalOpen
      ensures isAddModalOpen == old(isAddModalOpen) && isDeleteModalOpen == old(isDeleteModalOpen)
      ensures selectedFood == old(selectedFood) && searchQuery == old(searchQuery)
      ensures Valid()
    {
      isEditModalOpen := false;
    }

    /** The delete dialog's `onClose`: the record stays selected. */
    method CloseDelete()
      requires Valid()
      modifies this
      ensures !isDeleteModalOpen
      ensures isAddModalOpen == old(isAddModalOpen) && isEditModalOpen == old(isEditModalOpen)
      ensures selectedFood == old(selectedFood) && searchQuery == old(searchQuery)
      ensures Valid()
    {
      isDeleteModalOpen := false;
    }

    /** The hero's `setSearchQuery`. */
    method SetSearchQuery(q: string)
      requires Valid()
      modifies this
      ensures searchQuery == q
      ensures isAddModalOpen == old(isAddModalOpen) && isEditModalOpen == old(isEditModalOpen)
      ensures isDeleteModalOpen == old(isDeleteModalOpen) && selectedFood == old(selectedFood)
      ensures Valid()
    {
      searchQuery := q;
    }

    /** The children's props: both record dialogs get the same record, the hero
        and the list get the same text, and no dialog gets an `onSuccess`. */
    function Props(): (p: ChildProps)
      reads this
      ensures p.editFood == p.deleteFood == selectedFood
      ensures p.heroQuery == p.listQuery == searchQuery
      ensures p.addOpen == isAddModalOpen && p.editOpen == isEditModalOpen
      ensures p.deleteOpen == isDeleteModalOpen && !p.notify
    {
      ChildProps(isAddModalOpen, isEditModalOpen, selectedFood, isDeleteModalOpen, selectedFood,
                 searchQuery, searchQuery, false)
    }
  }

  /** In a valid page state an open record dialog is never the empty render:
      the edit and delete dialogs appear whenever their flag is set. */
  lemma OpenDialogsRender(page: HomePage)
    requires page.Valid()
    ensures page.isEditModalOpen ==> ModalView(page.Props().editOpen, page.Props().editFood) == Dialog(true)
    ensures page.isDeleteModalOpen ==> ModalView(page.Props().deleteOpen, page.Props().deleteFood) == Dialog(true)
  {
  }

  /** Editing one meal, closing the edit dialog and then asking to delete
      another leaves the closed edit dialog's record prop on the second meal as
      well: both record dialogs read the one selected meal. */
  method EditCloseDeleteScenario(first: Food, second: Food) returns (props: ChildProps)
    ensures props.deleteOpen && !props.editOpen && !props.addOpen
    ensures props.editFood == props.deleteFood == Some(second)
  {
    var page := new HomePage();
    page.HandleEditFood(first);
    page.CloseEdit();
    page.HandleDeleteFood(second);
    props := page.Props();
  }
}
