/**
 * The `items` slice of the client's Redux store
 * (crud-app/src/lib/features/itemsSlice.ts): the state and its nine
 * reducers, each assigning the fields it names.
 */
module ItemsSlice {
  import opened Wrappers
  import opened ItemTypes

  /** The mutation that just went through, which makes the list refetch. */
  datatype MutationKind = Add | Update | Delete

  /** `{ page: 1, limit: 10, minPrice: 0, maxPrice: 1000 }` */
  const DefaultQueryParams: QueryParams := [
    Param("page", NumValue(1.0)),
    Param("limit", NumValue(10.0)),
    Param("minPrice", NumValue(0.0)),
    Param("maxPrice", NumValue(1000.0))
  ]

  class ItemsState {
    var queryParams: QueryParams
    var action: Option<MutationKind>
    var isMutateLoading: bool
    var isOpenDialog: bool
    var itemEditing: Option<Item>

    /** `initialState` */
    constructor ()
      ensures queryParams == DefaultQueryParams
      ensures action == None && !isMutateLoading && !isOpenDialog && itemEditing == None
    {
      queryParams := DefaultQueryParams;
      action := None;
      isMutateLoading := false;
      isOpenDialog := false;
      itemEditing := None;
    }

    /** Replaces the query params wholesale, without merging. */
    method SetQueryParams(payload: QueryParams)
      modifies this
      ensures queryParams == payload
      ensures action == old(action) && isMutateLoading == old(isMutateLoading)
      ensures isOpenDialog == old(isOpenDialog) && itemEditing == old(itemEditing)
    {
      queryParams := payload;
    }

    method SetIsMutateLoading(payload: bool)
      modifies this
      ensures isMutateLoading == payload
      ensures queryParams == old(queryParams) && action == old(action)
      ensures isOpenDialog == old(isOpenDialog) && itemEditing == old(itemEditing)
    {
      isMutateLoading := payload;
    }

    method SetIsOpenDialog(payload: bool)
      modifies this
      ensures isOpenDialog == payload
      ensures queryParams == old(queryParams) && action == old(action)
      ensures isMutateLoading == old(isMutateLoading) && itemEditing == old(itemEditing)
    {
      isOpenDialog := payload;
    }

    /** Starts editing `item`: records it and opens the dialog. */
    method SetItemEditing(item: Item)
      modifies this
      ensures itemEditing == Some(item) && isOpenDialog
      ensures queryParams == old(queryParams) && action == old(action)
      ensures isMutateLoading == old(isMutateLoading)
    {
      isOpenDialog := true;
      itemEditing := Some(item);
    }

    /** Forgets the edited item; the dialog stays as it was. */
    method ResetItemEditing()
      modifies this
      ensures itemEditing == None
      ensures queryParams == old(queryParams) && action == old(action)
      ensures isMutateLoading == old(isMutateLoading) && isOpenDialog == old(isOpenDialog)
    {
      itemEditing := None;
    }

    method AddItem()
      modifies this
      ensures action == Some(Add)
      ensures queryParams == old(queryParams) && isMutateLoading == old(isMutateLoading)
      ensures isOpenDialog == old(isOpenDialog) && itemEditing == old(itemEditing)
    {
      action := Some(Add);
    }

    method EditItem()
      modifies this
      ensures action == Some(Update)
      ensures queryParams == old(queryParams) && isMutateLoading == old(isMutateLoading)
      ensures isOpenDialog == old(isOpenDialog) && itemEditing == old(itemEditing)
    {
      action := Some(Update);
    }

    method DeleteItem()
      modifies this
      ensures action == Some(Delete)
      ensures queryParams == old(queryParams) && isMutateLoading == old(isMutateLoading)
      ensures isOpenDialog == old(isOpenDialog) && itemEditing == old(itemEditing)
    {
      action := Some(Delete);
    }

    method ResetItemAction()
      modifies this
      ensures action == None
      ensures queryParams == old(queryParams) && isMutateLoading == old(isMutateLoading)
      ensures isOpenDialog == old(isOpenDialog) && itemEditing == old(itemEditing)
    {
      action := None;
    }
  }

  /** A mutation followed by `resetItemAction` leaves every field as it was before the mutation. */
  method MutationThenReset(state: ItemsState, kind: MutationKind)
    modifies state
    ensures state.action == None
    ensures state.queryParams == old(state.queryParams) && state.isMutateLoading == old(state.isMutateLoading)
    ensures state.isOpenDialog == old(state.isOpenDialog) && state.itemEditing == old(state.itemEditing)
  {
    match kind {
      case Add => state.AddItem();
      case Update => state.EditItem();
      case Delete => state.DeleteItem();
    }
    state.ResetItemAction();
  }
}
