/** The raw Draft document both converters exchange: blocks of plain text
    carrying offset-addressed style and entity ranges, plus the entity map the
    entity ranges point into. */
module Draft {

  /** An inline style over `length` characters starting at `offset`. */
  datatype StyleRange = StyleRange(offset: int, length: int, style: string) {
    /** The index just past the styled text. */
    function End(): int { offset + length }
  }

  /** An entity (link, image, mention, ...) over `length` characters starting
      at `offset`; `key` names its entry in the entity map. */
  datatype EntityRange = EntityRange(offset: int, length: int, key: int) {
    /** The index just past the covered text. */
    function End(): int { offset + length }
  }

  /** An entity-map entry: its type, its mutability and its data fields. */
  datatype Entity = Entity(kind: string, mutability: string, data: map<string, string>)

  /** One block: its type (`unstyled`, `header-one`, `ordered-list-item`, ...),
      its text, its list depth, its ranges and its data fields. */
  datatype Block = Block(
    kind: string,
    text: string,
    depth: int,
    styles: seq<StyleRange>,
    entities: seq<EntityRange>,
    data: map<string, string>)

  /** A whole raw document. */
  datatype Document = Document(blocks: seq<Block>, entityMap: map<int, Entity>)
}
