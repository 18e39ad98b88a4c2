/** The modal hook (`hooks/useModal.ts`): an open flag and the data the modal
    shows. `data` holds `null` as `None`; `open`'s argument distinguishes an
    omitted argument (`None`) from an explicit `null` (`Some(None)`). */
module UseModal {
  import opened Wrappers

  class Modal<D> {
    var isOpen: bool
    var data: Option<D>

    /** Closed and empty. */
    constructor ()
      ensures !isOpen && data == None
    {
      isOpen := false;
      data := None;
    }

    /** `open`: shows the modal; the data is replaced only when an argument,
        even `null`, is given. */
    method Open(modalData: Option<Option<D>>)
      modifies this
      ensures isOpen
      ensures modalData.Some? ==> data == modalData.value
      ensures modalData.None? ==> data == old(data)
    {
      isOpen := true;
      if modalData.Some? {
        data := modalData.value;
      }
    }

    /** `close`: hides the modal and keeps its data for the next opening. */
    method Close()
      modifies this
      ensures !isOpen && data == old(data)
    {
      isOpen := false;
    }

    /** `toggle`. */
    method Toggle()
      modifies this
      ensures isOpen == !old(isOpen) && data == old(data)
    {
      isOpen := !isOpen;
    }

    /** The returned `setData`. */
    method SetData(newData: Option<D>)
      modifies this
      ensures data == newData && isOpen == old(isOpen)
    {
      data := newData;
    }

    /** A client scenario, not a handler of the hook: toggling twice restores
        the modal. */
    method ToggleTwice()
      modifies this
      ensures isOpen == old(isOpen) && data == old(data)
    {
      Toggle();
      Toggle();
    }

    /** A client scenario, not a handler of the hook: closing and reopening
        without an argument shows the same data. */
    method Reopen()
      modifies this
      ensures isOpen && data == old(data)
    {
      Close();
      Open(None);
    }
  }
}
