/** The `sort_by` flag: which of the four catalog orderings the report uses. */
module SortKey {
  import opened Common

  /** The four orderings of the estimate table. */
  datatype Ordering = ByName | BySigSize | BySigWork | ByKeygenWork

  /** The value the flag takes when the user gives none. */
  const DefaultSortBy: string := "keygen"

  /** The flag value that selects each ordering. */
  function FlagValue(o: Ordering): string
  {
    match o
    case ByName => "name"
    case BySigSize => "size"
    case BySigWork => "signing"
    case ByKeygenWork => "keygen"
  }

  /** Maps the flag value to an ordering; any other string is a configuration error. */
  function ParseSortBy(s: string): (r: Result<Ordering>)
    ensures r.Ok? <==> s in {"name", "keygen", "signing", "size"}
    ensures r.Ok? ==> FlagValue(r.value) == s
    ensures r.Err? ==> r.error == UnknownSortBy(s)
  {
    if s == "name" then Ok(ByName)
    else if s == "keygen" then Ok(ByKeygenWork)
    else if s == "signing" then Ok(BySigWork)
    else if s == "size" then Ok(BySigSize)
    else Err(UnknownSortBy(s))
  }

  /** Parsing undoes `FlagValue`: every ordering is selectable by exactly one flag value. */
  lemma ParseFlagValue(o: Ordering)
    ensures ParseSortBy(FlagValue(o)) == Ok(o)
  {
  }

  /** Without a flag the catalog is ordered by keygen work. */
  lemma DefaultIsKeygen()
    ensures ParseSortBy(DefaultSortBy) == Ok(ByKeygenWork)
  {
  }
}
