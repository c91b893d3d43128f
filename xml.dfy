/** The stream of XML reader events that the ledger readers walk, shaped
    after the event type of the `xml` crate. */
module Xml {
  import opened Basics

  /** An element or attribute name; two names are equal when all three parts are. */
  datatype QName = QName(localName: string, namespace: Option<string>, prefix: Option<string>)

  datatype Attribute = Attribute(name: QName, value: string)

  /** Reader events: element starts and ends, character data, and every
      other kind (comments, whitespace, processing instructions, ...). */
  datatype Event =
    | StartElement(name: QName, attributes: seq<Attribute>)
    | EndElement(name: QName)
    | Characters(text: string)
    | OtherEvent(kind: string)

  /** A malformed-document error reported by the reader. */
  datatype ReaderError = ReaderError(message: string)

  /** One item of the reader's iterator. */
  datatype ReadItem = Event(event: Event) | Failure(error: ReaderError)

  /** A name with a prefix and no namespace, as `Name::prefixed` builds it. */
  function Prefixed(local: string, prefix: string): QName
  {
    QName(local, None, Some(prefix))
  }

  /** A bare name, as `Name::local` builds it. */
  function Local(local: string): QName
  {
    QName(local, None, None)
  }
}
