/**
 * The pending-products table of the admin backoffice: the projection of each
 * product onto the columns the table shows, and the checkbox selection
 * (a list of selected ids plus a separately stored "select all" flag).
 */
module PendingProducts {
  import opened Lists

  /** A pending product as the server hands it to the table. */
  datatype Product = Product(
    id: string, name: string, slug: string, headline: string,
    description: string, logo: string, website: string, rank: int)

  /** The four columns a table row keeps. */
  datatype RowView = RowView(id: string, name: string, description: string, logo: string)

  /** `formattedProducts`: one row per product, in order, keeping exactly id, name, description and logo. */
  function Project(products: seq<Product>): (rows: seq<RowView>)
    ensures |rows| == |products|
    ensures forall k :: 0 <= k < |rows| ==>
      rows[k].id == products[k].id && rows[k].name == products[k].name &&
      rows[k].description == products[k].description && rows[k].logo == products[k].logo
  {
    if products == [] then []
    else
      var p := products[0];
      [RowView(p.id, p.name, p.description, p.logo)] + Project(products[1..])
  }

  /** The ids of the visible rows, in display order. */
  function Ids(rows: seq<RowView>): (ids: seq<string>)
    ensures |ids| == |rows|
    ensures forall k :: 0 <= k < |rows| ==> ids[k] == rows[k].id
  {
    if rows == [] then [] else [rows[0].id] + Ids(rows[1..])
  }

  /** A row's checkbox is ticked exactly when its id is selected. */
  predicate Checked(selected: seq<string>, id: string)
    ensures Checked(selected, id) <==> exists k :: 0 <= k < |selected| && selected[k] == id
  {
    id in selected
  }

  /** The bulk-activate button is shown only while something is selected. */
  predicate BulkActivateOffered(selected: seq<string>)
    ensures BulkActivateOffered(selected) <==> exists id :: Checked(selected, id)
  {
    assert |selected| > 0 ==> Checked(selected, selected[0]);
    |selected| > 0
  }

  /** No id is listed twice. */
  predicate Distinct(ids: seq<string>) {
    forall i, j :: 0 <= i < j < |ids| ==> ids[i] != ids[j]
  }

  /**
   * `handleSelectProduct`'s new selection: a selected id is filtered out with
   * the rest kept in order, an unselected one is appended at the end. Only
   * that id's checkbox flips.
   */
  function ToggleId(selected: seq<string>, id: string): (r: seq<string>)
    ensures Checked(selected, id) ==> r == RemoveAll(selected, id)
    ensures !Checked(selected, id) ==> r == selected + [id]
    ensures Checked(r, id) <==> !Checked(selected, id)
    ensures forall other :: other != id ==> (Checked(r, other) <==> Checked(selected, other))
    ensures Distinct(selected) ==> Distinct(r)
  {
    if id in selected then
      var r := RemoveAll(selected, id);
      assert Distinct(selected) ==> Distinct(r) by {
        if Distinct(selected) {
          RemoveAllKeepsDistinct(selected, id);
        }
      }
      r
    else
      selected + [id]
  }

  lemma {:induction false} RemoveAllKeepsDistinct(xs: seq<string>, x: string)
    requires Distinct(xs)
    ensures Distinct(RemoveAll(xs, x))
  {
    if xs != [] {
      RemoveAllKeepsDistinct(xs[1..], x);
      assert xs[0] !in xs[1..];
    }
  }

  /** Selecting an unselected id and then deselecting it restores the selection. */
  lemma ToggleIdTwice(selected: seq<string>, id: string)
    requires id !in selected
    ensures ToggleId(ToggleId(selected, id), id) == selected
  {
    RemoveAllAppend(selected, [id], id);
    RemoveAllSingleton(id, id);
    assert selected + [] == selected;
  }

  /** Select-all over the visible rows ticks every row's checkbox and offers bulk activation when a row exists. */
  lemma SelectAllTicksEveryRow(rows: seq<RowView>)
    ensures forall k :: 0 <= k < |rows| ==> Checked(Ids(rows), rows[k].id)
    ensures |rows| > 0 ==> BulkActivateOffered(Ids(rows))
  {
    var ids := Ids(rows);
    forall k | 0 <= k < |rows| ensures Checked(ids, rows[k].id) {
      assert ids[k] == rows[k].id;
    }
  }

  /** The selection state of the pending-products table. */
  class Selection {
    var selected: seq<string>
    var selectAll: bool

    constructor ()
      ensures selected == [] && !selectAll
    {
      selected := [];
      selectAll := false;
    }

    /** `handleSelectProduct`: flips one id's selection; the select-all flag is left alone. */
    method SelectProduct(id: string)
      modifies this
      ensures selected == ToggleId(old(selected), id)
      ensures selectAll == old(selectAll)
    {
      selected := ToggleId(selected, id);
    }

    /**
     * `handleSelectAll`: with the flag clear every visible id is selected in
     * display order, with it set the selection empties; the flag flips.
     */
    method SelectAll(rows: seq<RowView>)
      modifies this
      ensures old(selectAll) ==> selected == []
      ensures !old(selectAll) ==> selected == Ids(rows)
      ensures selectAll == !old(selectAll)
    {
      if selectAll {
        selected := [];
      } else {
        selected := Ids(rows);
      }
      selectAll := !selectAll;
    }

    /**
     * `handleBulkActivate`: `activated` is whether the activation call
     * returned without error. Success clears the selection and the flag;
     * failure leaves both.
     */
    method BulkActivate(activated: bool) returns (submitted: seq<string>)
      modifies this
      ensures submitted == old(selected)
      ensures activated ==> selected == [] && !selectAll
      ensures !activated ==> selected == old(selected) && selectAll == old(selectAll)
    {
      submitted := selected;
      if activated {
        selected := [];
        selectAll := false;
      }
    }
  }
}
