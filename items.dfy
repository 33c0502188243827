/** The line item both extractors produce, and the key the hybrid extractor
    deduplicates on. */
module Items {

  /** One quote line: every field is text, "" when the extractor found nothing. */
  datatype LineItem = LineItem(
    lineNo: string,
    itemId: string,
    qty: string,
    unitPrice: string,
    total: string,
    description: string)

  /** `(line_no, item_id, total)`. */
  datatype ItemKey = ItemKey(lineNo: string, itemId: string, total: string)

  function Key(it: LineItem): ItemKey {
    ItemKey(it.lineNo, it.itemId, it.total)
  }
}
