/**
 * The node validators of the flow engine (backend/src/engine/flowExecutor.ts): which buttons of a
 * buttonMessage and which items of a listMessage are sent, and the list's button label.
 */
module Validators {
  import opened Wrappers
  import opened Seqs
  import opened JsText
  import opened Graph

  /** `btn.title && btn.title.trim().length > 0 && btn.title.length <= 20`. */
  predicate IsValidButtonTitle(title: string) {
    title != "" && |Trim(title)| > 0 && |title| <= 20
  }

  /** `item.title && item.title.trim().length > 0 && item.title.length <= 24`. */
  predicate IsValidItemTitle(title: string) {
    title != "" && |Trim(title)| > 0 && |title| <= 24
  }

  /** A title passes the emptiness part of the check exactly when it has a non-space character. */
  lemma TitleNonBlank(title: string)
    ensures (title != "" && |Trim(title)| > 0) <==> !AllSpace(title)
  {
    TrimEmptyIffBlank(title);
  }

  /** The buttons passing the title check, in order; a missing array counts as empty. */
  function ValidButtons(buttons: Option<seq<Button>>): (r: seq<Button>)
    ensures forall b :: b in r <==> b in buttons.GetOr([]) && IsValidButtonTitle(b.title)
    ensures IsSubsequence(r, buttons.GetOr([]))
    ensures forall b :: multiset(r)[b] == if IsValidButtonTitle(b.title) then multiset(buttons.GetOr([]))[b] else 0
  {
    FilterIsSubsequence(buttons.GetOr([]), (b: Button) => IsValidButtonTitle(b.title));
    FilterCount(buttons.GetOr([]), (b: Button) => IsValidButtonTitle(b.title));
    Filter(buttons.GetOr([]), (b: Button) => IsValidButtonTitle(b.title))
  }

  /** The key the source de-duplicates buttons by. */
  function TrimmedTitle(b: Button): string {
    Trim(b.title)
  }

  /**
   * The de-duplication loop of the source: a filter whose callback consults and grows a set of
   * titles already seen, so the first button with a given trimmed title wins.
   */
  method DedupByTitle(bs: seq<Button>) returns (r: seq<Button>)
    ensures r == FirstByKey(bs, TrimmedTitle)
  {
    var seen: set<string> := {};
    r := [];
    var i := 0;
    while i < |bs|
      invariant 0 <= i <= |bs|
      invariant forall t :: t in seen <==> t in KeysOf(bs[..i], TrimmedTitle)
      invariant r == FirstByKey(bs[..i], TrimmedTitle)
    {
      var title := Trim(bs[i].title);
      assert bs[..i + 1][..i] == bs[..i];
      if title !in seen {
        seen := seen + {title};
        r := r + [bs[i]];
      }
      i := i + 1;
    }
    assert bs[..i] == bs;
  }

  /** What the engine sends for a buttonMessage: the valid buttons, de-duplicated. */
  function UniqueButtons(buttons: Option<seq<Button>>): seq<Button> {
    FirstByKey(ValidButtons(buttons), TrimmedTitle)
  }

  /**
   * The buttons sent for a buttonMessage each have a valid title, come from the node's buttons
   * and keep the node's order.
   */
  lemma UniqueButtonsFromInput(buttons: Option<seq<Button>>)
    ensures forall b :: b in UniqueButtons(buttons) ==> b in buttons.GetOr([]) && IsValidButtonTitle(b.title)
    ensures IsSubsequence(UniqueButtons(buttons), buttons.GetOr([]))
  {
    var v := ValidButtons(buttons);
    var r := UniqueButtons(buttons);
    FirstByKeySubsequence(v, TrimmedTitle);
    SubsequenceTransitive(r, v, buttons.GetOr([]));
    SubsequenceIn(r, v);
  }

  /**
   * No two buttons sent share a trimmed title, and every trimmed title of a valid button is
   * represented among them.
   */
  lemma UniqueButtonsDistinct(buttons: Option<seq<Button>>)
    ensures var r := KeysOf(UniqueButtons(buttons), TrimmedTitle);
      && (forall i, j :: 0 <= i < j < |r| ==> r[i] != r[j])
      && (forall b :: b in ValidButtons(buttons) ==> TrimmedTitle(b) in r)
  {
    var v := ValidButtons(buttons);
    FirstByKeyDistinct(v, TrimmedTitle);
    KeyOfMember(v, TrimmedTitle);
  }

  /**
   * First occurrence wins: a valid button whose trimmed title occurs on no earlier valid button
   * is sent.
   */
  lemma FirstValidOccurrenceSent(buttons: Option<seq<Button>>, k: nat)
    requires k < |ValidButtons(buttons)|
    requires var v := ValidButtons(buttons); Trim(v[k].title) !in KeysOf(v[..k], TrimmedTitle)
    ensures ValidButtons(buttons)[k] in UniqueButtons(buttons)
  {
    FirstOccurrenceKept(ValidButtons(buttons), TrimmedTitle, k);
  }

  /** The list items passing the title check, in order; a missing array counts as empty. */
  function ValidListItems(items: Option<seq<ListItem>>): (r: seq<ListItem>)
    ensures forall it :: it in r <==> it in items.GetOr([]) && IsValidItemTitle(it.title)
    ensures IsSubsequence(r, items.GetOr([]))
    ensures forall it :: multiset(r)[it] == if IsValidItemTitle(it.title) then multiset(items.GetOr([]))[it] else 0
  {
    FilterIsSubsequence(items.GetOr([]), (it: ListItem) => IsValidItemTitle(it.title));
    FilterCount(items.GetOr([]), (it: ListItem) => IsValidItemTitle(it.title));
    Filter(items.GetOr([]), (it: ListItem) => IsValidItemTitle(it.title))
  }

  /** `node.data.buttonText || "View Options"`: a missing or empty label falls back to the default. */
  function ButtonLabel(buttonText: Option<string>): (r: string)
    ensures r != ""
    ensures buttonText.Some? && buttonText.value != "" ==> r == buttonText.value
    ensures (buttonText.None? || buttonText.value == "") ==> r == "View Options"
  {
    if buttonText.Some? && buttonText.value != "" then buttonText.value else "View Options"
  }

  /**
   * The de-duplication is by trimmed title and is case-sensitive: "Yes", "yes " and "No" are
   * three distinct titles, so all three buttons survive.
   */
  lemma CaseSensitiveDedup()
    ensures |UniqueButtons(Some([Button("a", "Yes"), Button("b", "yes "), Button("c", "No")]))| == 3
  {
    var bs := [Button("a", "Yes"), Button("b", "yes "), Button("c", "No")];
    ExampleTitles();
    ExampleAllValid(bs);
    ExampleNoDuplicates(bs);
  }

  lemma ExampleTitles()
    ensures Trim("Yes") == "Yes" && Trim("yes ") == "yes" && Trim("No") == "No"
  {
    assert TrimStart("Yes") == "Yes";
    assert TrimStart("yes ") == "yes ";
    assert "yes "[..3] == "yes";
    assert TrimStart("No") == "No";
  }

  lemma ExampleAllValid(bs: seq<Button>)
    requires bs == [Button("a", "Yes"), Button("b", "yes "), Button("c", "No")]
    requires Trim("Yes") == "Yes" && Trim("yes ") == "yes" && Trim("No") == "No"
    ensures ValidButtons(Some(bs)) == bs
  {
    assert IsValidButtonTitle(bs[0].title) && IsValidButtonTitle(bs[1].title) && IsValidButtonTitle(bs[2].title);
    FilterAll(bs, (b: Button) => IsValidButtonTitle(b.title));
  }

  lemma ExampleNoDuplicates(bs: seq<Button>)
    requires bs == [Button("a", "Yes"), Button("b", "yes "), Button("c", "No")]
    requires Trim("Yes") == "Yes" && Trim("yes ") == "yes" && Trim("No") == "No"
    ensures FirstByKey(bs, TrimmedTitle) == bs
  {
    assert TrimmedTitle(bs[0]) == "Yes" && TrimmedTitle(bs[1]) == "yes" && TrimmedTitle(bs[2]) == "No";
    FirstByKeyNoRepeat(bs, TrimmedTitle);
  }
}
