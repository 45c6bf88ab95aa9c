/** Positions in a laid-out document, and what a link points to. */
module Navigation {
  import opened Options

  datatype DocumentLocation = DocumentLocation(document: string, anchor: Option<string>)

  datatype NavigationTarget =
    | Location(location: DocumentLocation)
    | Anchor(anchor: string)
    | Document(document: string)
    | DocumentAnchor(document: string, anchor: string)
    | Asset(asset: string)
    | External(url: string)

  /** A position between laid-out lines: before line `line` of block `block`. */
  datatype DocumentCursor = DocumentCursor(block: nat, line: nat)

  predicate Before(a: DocumentCursor, b: DocumentCursor) {
    a.block < b.block || (a.block == b.block && a.line < b.line)
  }

  predicate AtOrBefore(a: DocumentCursor, b: DocumentCursor) {
    a == b || Before(a, b)
  }

  /** The half-open range [start, end). */
  datatype DocumentRange = DocumentRange(start: DocumentCursor, end: DocumentCursor) {
    predicate Contains(cursor: DocumentCursor) {
      AtOrBefore(start, cursor) && Before(cursor, end)
    }
  }
}
