/** The pages of a file, and places in them. */
module Places {
  /** Page numbers start at 1; 0 is the magic page, or stands for "no page". */
  type PageIndex = nat

  /** A place in a page; page 0 stands for none. */
  datatype Pos = Pos(page: PageIndex, off: nat)

  const NONE := Pos(0, 0)

  const PAGEUSED := 4088        // the bytes of a page that are written to the file, less those that name the page
}
