/** `sunpy.database.tables.DatabaseEntry`, reduced to the two columns the
    database core looks at. */
module Tables {
  import opened Wrappers

  class DatabaseEntry {
    /** Unset until the entry is added to a database. */
    var id: Option<int>
    var starred: bool

    /** A new entry has no id and is not starred. */
    constructor ()
      ensures id == None && !starred
    {
      id := None;
      starred := false;
    }
  }
}
