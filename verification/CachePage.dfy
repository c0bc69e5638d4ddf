module CachePage {
  // What a page frame holds; a frame that was never filled has no id and matches no lookup.
  datatype PageId = Nothing | Page(file: nat, index: nat)
}
