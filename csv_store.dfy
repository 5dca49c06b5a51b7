/** A CSV file that the application only ever appends rows to, reads whole, or deletes.
    Each row is one record; the `csv` module's encoding is taken to round-trip. */
module CsvStore {

  class AppendFile<T> {
    /** Whether the file exists on disk. */
    var present: bool
    /** The file's rows, in the order they were written. */
    var rows: seq<T>

    /** A file that does not exist has no rows. */
    ghost predicate Valid()
      reads this
    {
      !present ==> rows == []
    }

    constructor Absent()
      ensures Valid() && !present && rows == []
    {
      present := false;
      rows := [];
    }

    constructor Holding(existing: seq<T>)
      ensures Valid() && present && rows == existing
    {
      present := true;
      rows := existing;
    }

    /** `open(path, "a")` followed by `writer.writerow(row)`: creates the file when it is
        missing and keeps every earlier row as a prefix. */
    method AppendRow(row: T)
      requires Valid()
      modifies this
      ensures Valid() && present
      ensures rows == old(rows) + [row]
    {
      present := true;
      rows := rows + [row];
    }

    /** `os.remove(path)`. */
    method Remove()
      requires Valid() && present
      modifies this
      ensures Valid() && !present && rows == []
    {
      present := false;
      rows := [];
    }
  }
}
