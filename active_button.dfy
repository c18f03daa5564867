/** A shelf button with a split toggle: the main part adds the game to the
    shelf, the toggle opens the shelf chooser. */
module ActiveButton {
  import opened Json
  import opened Text

  /** The button's caption. Wishlist and Backlog read as past participles
      whatever the index; any other shelf reads as its own name once the game
      is on it, and invites adding it otherwise. */
  function Caption(index: Option<int>, labelText: string): (t: string)
    ensures labelText == "Wishlist" ==> t == "Wishlisted"
    ensures labelText == "Backlog" ==> t == "Backlogged"
    ensures labelText != "Wishlist" && labelText != "Backlog" && index.Some? ==> t == labelText
    ensures labelText != "Wishlist" && labelText != "Backlog" && index.None? ==> t == "Add to " + labelText
    // the shelf's name is always visible: at the start or at the end of the caption
    ensures |labelText| <= |t| && (t[..|labelText|] == labelText || t[|t| - |labelText|..] == labelText)
  {
    if labelText == "Wishlist" then labelText + "ed"
    else if labelText == "Backlog" then labelText + "ged"
    else if index.Some? then labelText
    else "Add to " + labelText
  }

  /** `data-index={index}`: a number is written out in decimal, `null`
      leaves the attribute out (`dataset.index` is then `undefined`). */
  function DataIndex(index: Option<int>): Option<string>
  {
    if index.Some? then Some(IntToString(index.value)) else None
  }

  /** An optional sign followed by at least one decimal digit. */
  predicate DecimalLiteral(t: string)
  {
    var body := if t != [] && (t[0] == '-' || t[0] == '+') then t[1..] else t;
    body != [] && AllDigits(body)
  }

  /** `Number(v)` on a dataset value, `None` being NaN: `undefined` is NaN,
      a blank string is 0, a decimal literal is its value. */
  function Number(v: Option<string>): (r: Option<int>)
    ensures v.None? ==> r.None?
    ensures v.Some? && AllWhitespace(v.value) ==> r == Some(0)
  {
    if v.None? then None
    else
      var t := Trim(v.value);
      TrimEmpty(v.value);
      if t == [] then Some(0)
      else if DecimalLiteral(t) then ParseInt(t)
      else None
  }

  /** The two arguments a click passes to `addPlay`: `index!` as the status
      (`None` is `null`), and the index read back from the data attribute as
      the button index (`None` is NaN). */
  datatype Click = Click(statusValue: Option<int>, buttonIndex: Option<int>)

  /** Which part of the control is pressed. */
  datatype Part = MainButton | SplitToggle

  /** What a press invokes: `addPlay` or `showModal`. */
  datatype Invocation = AddPlay(click: Click) | ShowModal

  /** A press: the main button reports its index twice, once directly and
      once through the data attribute, and both agree; the toggle only opens
      the shelf chooser. */
  function Press(part: Part, index: Option<int>): (inv: Invocation)
    ensures inv.ShowModal? <==> part == SplitToggle
    ensures inv.AddPlay? ==> inv.click.statusValue == index && inv.click.buttonIndex == index
  {
    match part
    case SplitToggle => ShowModal
    case MainButton =>
      ReadBack(index);
      AddPlay(Click(index, Number(DataIndex(index))))
  }

  /** Writing an index into the data attribute and reading it back with
      `Number` gives the index again; a missing index reads back as NaN. */
  lemma ReadBack(index: Option<int>)
    ensures Number(DataIndex(index)) == index
  {
    if index.Some? {
      TrimDecimal(index.value);
      ParseIntOfIntToString(index.value);
    }
  }

  /** The decimal text of a number has no surrounding whitespace and is a
      decimal literal. */
  lemma TrimDecimal(n: int)
    ensures Trim(IntToString(n)) == IntToString(n) && DecimalLiteral(IntToString(n))
  {
    IntToStringShape(n);
    var s := IntToString(n);
    assert !IsWhitespace(s[0]);
    assert !IsWhitespace(s[|s| - 1]);
  }

  /** `active={index !== null}`. */
  function Active(index: Option<int>): bool
  {
    index.Some?
  }

  /** An active button is one whose click reports a real button index (the
      data attribute holds a number), and it shows the shelf's own name
      (or its past participle); an inactive button reports NaN and invites
      adding the game. */
  lemma ActiveState(index: Option<int>, labelText: string)
    ensures Active(index) <==> DataIndex(index).Some?
    ensures Active(index) <==> Press(MainButton, index).click.buttonIndex.Some?
    ensures Active(index) <==> Number(DataIndex(index)).Some?
    ensures labelText != "Wishlist" && labelText != "Backlog" ==>
      (Active(index) <==> Caption(index, labelText) == labelText)
  {
    ReadBack(index);
    if !Active(index) && labelText != "Wishlist" && labelText != "Backlog" {
      assert |Caption(index, labelText)| == |labelText| + 7;
    }
  }
}
