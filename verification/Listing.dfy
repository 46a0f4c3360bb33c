/** What the depends_on and priority options of a program mean, said of the text of the options. */
module Listing {
  import opened Text
  import opened TextProof
  import opened ConfigEntry

  /** One item of a list, with white space around the name. */
  datatype Item = Item(before: string, name: string, after: string)

  ghost predicate WellWritten(x: Item) {
    IsBlank(x.before) && IsTrimmed(x.name) && ',' !in x.name && IsBlank(x.after)
  }

  function TextOf(x: Item): string {
    x.before + x.name + x.after
  }

  function TextsOf(items: seq<Item>): (texts: seq<string>)
    ensures |texts| == |items|
  {
    if items == [] then [] else [TextOf(items[0])] + TextsOf(items[1..])
  }

  /** The items joined by commas. */
  function Listed(items: seq<Item>): string
    requires items != []
  {
    Joined(TextsOf(items), ',')
  }

  /** The names of the items but for those that are blank. */
  function NamesOf(items: seq<Item>): seq<string> {
    if items == [] then []
    else (if items[0].name == "" then [] else [items[0].name]) + NamesOf(items[1..])
  }

  lemma {:induction false} SpacesHaveNoComma(parts: seq<string>)
    requires AllSpaces(parts)
    ensures ',' !in Flat(parts)
    decreases |parts|
  {
    if parts != [] {
      SpacesHaveNoComma(parts[1..]);
    }
  }

  lemma BlankHasNoComma(s: string)
    requires IsBlank(s)
    ensures ',' !in s
  {
    var parts :| AllSpaces(parts) && s == Flat(parts);
    SpacesHaveNoComma(parts);
  }

  lemma ItemIsRead(x: Item)
    requires WellWritten(x)
    ensures ',' !in TextOf(x) && Trim(TextOf(x)) == x.name
  {
    BlankHasNoComma(x.before);
    BlankHasNoComma(x.after);
    TrimBetween(x.before, x.name, x.after);
  }

  lemma FreeCons(p: string, parts: seq<string>)
    requires ',' !in p && Free(parts, ',')
    ensures Free([p] + parts, ',') && NonEmpty([p] + parts) == (if Trim(p) == "" then [] else [Trim(p)]) + NonEmpty(parts)
  {
    assert ([p] + parts)[1..] == parts;
  }

  lemma {:induction false} ItemsAreRead(items: seq<Item>)
    requires forall x | x in items :: WellWritten(x)
    ensures Free(TextsOf(items), ',') && NonEmpty(TextsOf(items)) == NamesOf(items)
    decreases |items|
  {
    if items != [] {
      assert items[0] in items && forall x | x in items[1..] :: x in items;
      ItemIsRead(items[0]);
      ItemsAreRead(items[1..]);
      FreeCons(TextOf(items[0]), TextsOf(items[1..]));
    }
  }

  /** Items joined by commas, with white space anywhere around the names, are read as the names that are not blank. */
  lemma ListIsRead(items: seq<Item>)
    requires items != [] && forall x | x in items :: WellWritten(x)
    ensures NonEmpty(Split(Listed(items), ',')) == NamesOf(items)
  {
    ItemsAreRead(items);
    SplitJoined(TextsOf(items), ',');
  }

  lemma {:induction false} PartsAreItems(parts: seq<string>) returns (items: seq<Item>)
    requires Free(parts, ',')
    ensures TextsOf(items) == parts && forall x | x in items :: WellWritten(x)
    decreases |parts|
  {
    items := [];
    if parts != [] {
      var before, after := TrimLeaves(parts[0]);
      var x := Item(before, Trim(parts[0]), after);
      var more := PartsAreItems(parts[1..]);
      items := [x] + more;
      assert items[1..] == more && [parts[0]] + parts[1..] == parts;
    }
  }

  /** Every text is such a list. */
  lemma EveryTextIsList(text: string) returns (items: seq<Item>)
    ensures items != [] && Listed(items) == text && forall x | x in items :: WellWritten(x)
  {
    JoinedSplit(text, ',');
    items := PartsAreItems(Split(text, ','));
  }

  /** A program depends on just the names that its option lists. */
  lemma DependsOnListed(e: Entry, items: seq<Item>)
    requires items != [] && forall x | x in items :: WellWritten(x)
    requires "depends_on" in e.keyValues && e.keyValues["depends_on"] == Listed(items)
    ensures e.DependsOnNames() == NamesOf(items)
    ensures (forall x | x in items :: x.name != "") ==>
              |e.DependsOnNames()| == |items| && forall i | 0 <= i < |items| :: e.DependsOnNames()[i] == items[i].name
  {
    ListIsRead(items);
    if forall x | x in items :: x.name != "" {
      AllNamed(items);
    }
  }

  lemma {:induction false} AllNamed(items: seq<Item>)
    requires forall x | x in items :: x.name != ""
    ensures |NamesOf(items)| == |items| && forall i | 0 <= i < |items| :: NamesOf(items)[i] == items[i].name
    decreases |items|
  {
    if items != [] {
      assert items[0] in items && forall x | x in items[1..] :: x in items;
      AllNamed(items[1..]);
    }
  }

  /** The priority is the number the option holds, and 999 without a number. */
  lemma PriorityIs(e: Entry, n: int)
    requires n != 999
    ensures e.Priority() == n <==>
            && "priority" in e.keyValues && INT_MIN <= n <= INT_MAX
            && exists sign, digits ::
                 IsSign(sign) && IsNumeral(digits) && e.keyValues["priority"] == sign + digits && n == Signed(sign, PlaceValue(digits))
  {
    if "priority" in e.keyValues {
      AtoiIff(e.keyValues["priority"], n);
    }
  }
}
