/** Values shared by the presenter and the offers store: one trip leg ("event"),
    its offers, and the tags the presenter sends to its parent. */
module TripTypes {

  datatype Option<T> = None | Some(value: T)

  /** A priced add-on of an event; `offerType` is the JavaScript field `type`. */
  datatype Offer = Offer(offerType: string, title: string, price: int)

  /** A destination is an object that the source compares by identity (`===`);
      the reference number stands for that identity. */
  datatype DestinationRef = DestinationRef(ref: nat)

  /** One trip leg. Timestamps are integers; prices are integers (the source's
      JavaScript numbers, without floating point). */
  datatype Event = Event(
    id: string,
    eventType: string,
    destination: DestinationRef,
    timeStart: int,
    timeEnd: int,
    price: int,
    offers: seq<Offer>,
    isFavorite: bool)

  /** What the user did. */
  datatype UserAction = UpdateEvent | DeleteEvent

  /** How much of the list the parent must re-derive, in ascending severity. */
  datatype UpdateType = Patch | Minor | Major
}
