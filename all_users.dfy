/** The user directory page's search: a case-insensitive substring filter on
    username or name, over the user documents in the order they arrived. */
module AllUsers {
  import opened Wrappers
  import Text
  import Seqs

  /** A user document; either name field may be missing. */
  datatype Creator = Creator(id: string, username: Option<string>, name: Option<string>)

  /** The query result; `documents` may be missing. */
  datatype CreatorList = CreatorList(documents: Option<seq<Creator>>)

  /** `field?.toLowerCase().includes(query.toLowerCase())`: a missing field
      never matches. */
  predicate FieldMatches(field: Option<string>, query: string)
  {
    field.Some? && Text.Contains(Text.Lower(field.value), Text.Lower(query))
  }

  predicate Matches(c: Creator, query: string)
  {
    FieldMatches(c.username, query) || FieldMatches(c.name, query)
  }

  /** `filteredUsers`: the matching creators in their original order, or
      `[]` when the list or its documents are missing. */
  function FilteredUsers(creators: Option<CreatorList>, query: string): (r: seq<Creator>)
    ensures creators.None? || creators.value.documents.None? ==> r == []
    ensures creators.Some? && creators.value.documents.Some? ==>
              && Seqs.IsSubsequence(r, creators.value.documents.value)
              && forall c :: c in r <==> c in creators.value.documents.value && Matches(c, query)
  {
    if creators.None? || creators.value.documents.None? then []
    else Seqs.Filter(creators.value.documents.value, (c: Creator) => Matches(c, query))
  }

  /** A creator with neither username nor name is never listed. */
  lemma NamelessNeverKept(creators: Option<CreatorList>, query: string, c: Creator)
    requires c.username.None? && c.name.None?
    ensures c !in FilteredUsers(creators, query)
  {
  }

  /** The empty query lists every creator that has a username or a name. */
  lemma EmptyQueryKeepsNamed(docs: seq<Creator>, c: Creator)
    requires c in docs && (c.username.Some? || c.name.Some?)
    ensures c in FilteredUsers(Some(CreatorList(Some(docs))), "")
  {
    if c.username.Some? {
      Text.ContainsEmpty(Text.Lower(c.username.value));
    } else {
      Text.ContainsEmpty(Text.Lower(c.name.value));
    }
  }

  /** Each listed creator appears as often as in the input. */
  lemma FilteredKeepsMultiplicity(docs: seq<Creator>, query: string, c: Creator)
    requires Matches(c, query)
    ensures multiset(FilteredUsers(Some(CreatorList(Some(docs))), query))[c] == multiset(docs)[c]
  {
  }
}
