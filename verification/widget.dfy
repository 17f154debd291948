/** How the element and its root component meet: the props the element renders with,
    and a seat click travelling from the root component back to the element. */
module Widget {
  import opened Wrappers
  import SeatBooking
  import Root

  /** The props `renderChildren` passes to the root component, as far as `updateRows` reads them. */
  function PropsOf(el: SeatBooking.Element): Root.Props {
    Root.Props(el.layout, el.occupied, el.selectedSeat)
  }

  /** `updateRows` reads only the layout, the occupied list and the selection, so an
      accepted change of `data-names`, `data-seatnames`, `data-offsets` or
      `data-can-override` leaves the props it reads as they were. */
  lemma UnreadAttributesKeepProps(el: SeatBooking.Element, attribute: string, newValue: Option<string>)
    ensures var r := SeatBooking.AttributeChanged(el, attribute, newValue);
      && r.Ok?
      && SeatBooking.AttributeNamed(attribute) != Some(SeatBooking.DataLayout)
      && SeatBooking.AttributeNamed(attribute) != Some(SeatBooking.DataOccupied)
      && SeatBooking.AttributeNamed(attribute) != Some(SeatBooking.DataSelectedSeat)
      ==> PropsOf(r.value) == PropsOf(el)
  {
  }

  /** A click on seat `id` selects it in the root component, hands the same id to the
      element, which records it and reports whether it is occupied; the props of the next
      render carry that selection and the same layout, so the geometry does not change. */
  lemma ClickSelectsSeat(el: SeatBooking.Element, rs: Root.RootState, id: string)
    ensures var (rs', forwarded) := Root.OnSeatClicked(rs, id);
      var (el', event) := SeatBooking.OnSeatSelected(el, forwarded);
      && rs'.selectedId == Some(id)
      && el'.selectedSeat == Some(id)
      && event == SeatBooking.SeatSelected(id, id in el.occupied)
      && PropsOf(el').selectedId == rs'.selectedId
      && PropsOf(el').layout == PropsOf(el).layout
      && PropsOf(el').occupied == PropsOf(el).occupied
  {
  }
}
