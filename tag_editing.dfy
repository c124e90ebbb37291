/** The tag editor of the account app and the restaurant profile page: a
    list of tags and the text typed for a new one. */
module TagEditing {
  import opened Text
  import Seqs

  /** The tags and the new-tag input. */
  datatype Editor = Editor(tags: seq<string>, input: string)

  /** The trimmed input is not blank and is not a tag yet. */
  predicate CanAdd(tags: seq<string>, input: string) {
    JsTrim(input) != "" && JsTrim(input) !in tags
  }

  /** `addTag`: an addable input is appended trimmed and the input is
      cleared; otherwise nothing changes. */
  function AddTag(e: Editor): (r: Editor)
    ensures CanAdd(e.tags, e.input) ==> r.tags == e.tags + [JsTrim(e.input)] && r.input == ""
    ensures !CanAdd(e.tags, e.input) ==> r == e
    ensures IsBlank(e.input, IsJsSpace) ==> r == e
    ensures forall t :: t in r.tags <==> t in e.tags || (CanAdd(e.tags, e.input) && t == JsTrim(e.input))
    ensures Seqs.NoDuplicates(e.tags) ==> Seqs.NoDuplicates(r.tags)
  {
    TrimEmptyIffBlank(e.input, IsJsSpace);
    if CanAdd(e.tags, e.input) then
      Seqs.NoDuplicatesSnoc(e.tags, JsTrim(e.input));
      Editor(e.tags + [JsTrim(e.input)], "")
    else e
  }

  /** `removeTag`: every copy of the tag goes, the others keep their order
      and number. */
  function RemoveTag(tags: seq<string>, tag: string): (r: seq<string>)
    ensures tag !in r
    ensures forall t | t != tag :: multiset(r)[t] == multiset(tags)[t]
    ensures Seqs.IsSubsequence(r, tags)
  {
    var keep := t => t != tag;
    Seqs.FilterMembers(tags, keep);
    Seqs.FilterCount(tags, keep);
    Seqs.FilterSubsequence(tags, keep);
    Seqs.Filter(tags, keep)
  }

  /** The same input cannot be added twice: once added, it is refused and
      kept in the input box. */
  lemma AddTagTwice(tags: seq<string>, input: string)
    requires CanAdd(tags, input)
    ensures var once := AddTag(Editor(tags, input));
            AddTag(Editor(once.tags, input)) == Editor(once.tags, input)
  {
    var once := AddTag(Editor(tags, input));
    assert JsTrim(input) in once.tags;
  }

  /** Removing a tag just added gives the old list back. */
  lemma RemoveUndoesAdd(tags: seq<string>, input: string)
    requires CanAdd(tags, input)
    ensures RemoveTag(AddTag(Editor(tags, input)).tags, JsTrim(input)) == tags
  {
    var t := JsTrim(input);
    var keep := x => x != t;
    Seqs.FilterConcat(tags, [t], keep);
    Seqs.FilterKeepsAll(tags, keep);
    assert [t][1..] == [];
  }
}
