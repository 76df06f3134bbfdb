/**
 * The "add category" card of the admin backoffice: a client-side guard on
 * the typed name, then the server's answer decides whether the new category
 * joins the list.
 */
module AddCategory {
  import opened Wrappers
  import opened Strings

  datatype Category = Category(id: string, name: string)

  /** What the `addCategory` server action gave back: the created record, or an error. */
  datatype ServerReply = Created(id: string, name: string) | Threw(message: string)

  /** How one click of "Add" ended. */
  datatype AddOutcome = Rejected | Added | ServerFailed

  /** Some existing category has the same name as `input` once both are lower-cased (`input` is not trimmed). */
  predicate NameTaken(input: string, categories: seq<Category>)
    ensures (exists k :: 0 <= k < |categories| && categories[k].name == input) ==> NameTaken(input, categories)
  {
    exists k :: 0 <= k < |categories| && ToLower(categories[k].name) == ToLower(input)
  }

  /** The guard of `handleAddCategory`: a name with something besides whitespace, not already taken. */
  predicate Accepts(input: string, categories: seq<Category>)
    ensures Accepts(input, categories) <==> !AllSpace(input) && !NameTaken(input, categories)
  {
    Trim(input) != "" && !NameTaken(input, categories)
  }

  /** The duplicate test ignores the case of the input. */
  lemma NameTakenIgnoresCase(input: string, categories: seq<Category>)
    ensures NameTaken(input, categories) <==> NameTaken(ToLower(input), categories)
  {
    ToLowerIdempotent(input);
  }

  /** No two categories share a name ignoring case. */
  predicate CaseDistinct(categories: seq<Category>) {
    forall i, j :: 0 <= i < j < |categories| ==> ToLower(categories[i].name) != ToLower(categories[j].name)
  }

  /** The guard refuses exactly the blank names and the names already taken. */
  lemma AcceptsExactly(input: string, categories: seq<Category>)
    ensures Accepts(input, categories) <==>
      !AllSpace(input) && forall k :: 0 <= k < |categories| ==> ToLower(categories[k].name) != ToLower(input)
  {
  }

  /**
   * A new category whose name passed the guard keeps the list free of
   * case-insensitive duplicates, when the server stores the name as sent.
   */
  lemma AddKeepsCaseDistinct(categories: seq<Category>, input: string, id: string)
    requires CaseDistinct(categories)
    requires Accepts(input, categories)
    ensures CaseDistinct(categories + [Category(id, input)])
  {
    var next := categories + [Category(id, input)];
    forall i, j | 0 <= i < j < |next|
      ensures ToLower(next[i].name) != ToLower(next[j].name)
    {
      if j == |categories| {
        assert next[i] == categories[i];
        assert ToLower(categories[i].name) != ToLower(input);
      }
    }
  }

  /**
   * The duplicate test compares the untrimmed input: a name with a leading
   * space passes the guard although its trimmed form is already listed.
   */
  lemma PaddedNamePassesGuard()
    ensures Accepts(" Books", [Category("1", "Books")])
    ensures Trim(" Books") == "Books"
  {
    var cats := [Category("1", "Books")];
    assert |ToLower(" Books")| != |ToLower("Books")|;
    assert !AllSpace(" Books") by {
      assert !IsSpace(" Books"[1]);
    }
    assert LeadingSpace(" Books") == 1 by {
      assert " Books"[1..] == "Books";
      assert !IsSpace("Books"[0]);
    }
    assert TrailingSpace(" Books") == 0;
    assert " Books"[1..6] == "Books";
  }

  /** The state of the card: the categories listed and the text in the input box. */
  class CategoryForm {
    var categories: seq<Category>
    var input: string

    constructor (initialCategories: seq<Category>)
      ensures categories == initialCategories && input == ""
    {
      categories := initialCategories;
      input := "";
    }

    /** The input box's `onChange`: the typed text replaces the input. */
    method Type(text: string)
      modifies this
      ensures input == text && categories == old(categories)
    {
      input := text;
    }

    /**
     * `handleAddCategory`. A guarded-out name changes nothing and sends
     * nothing; otherwise the untrimmed input goes to the server (`sent`),
     * and `reply` is its answer: a created record joins the end of the
     * list and clears the input, an error changes nothing.
     */
    method Add(reply: ServerReply) returns (outcome: AddOutcome, sent: Option<string>)
      modifies this
      ensures outcome == Rejected <==> !Accepts(old(input), old(categories))
      ensures sent == if Accepts(old(input), old(categories)) then Some(old(input)) else None
      ensures outcome == Added <==> Accepts(old(input), old(categories)) && reply.Created?
      ensures outcome == Added ==>
        categories == old(categories) + [Category(reply.id, reply.name)] && input == ""
      ensures outcome != Added ==> categories == old(categories) && input == old(input)
    {
      if Accepts(input, categories) {
        sent := Some(input);
        match reply
        case Created(id, name) =>
          categories := categories + [Category(id, name)];
          input := "";
          outcome := Added;
        case Threw(_) =>
          outcome := ServerFailed;
      } else {
        sent := None;
        outcome := Rejected;
      }
    }
  }
}
