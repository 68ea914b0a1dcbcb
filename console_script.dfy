/**
 * The console script `renumberTrelloList` embedded in App.tsx: it asks for a
 * list name, finds the list whose header matches it, and rewrites every card
 * title of that list as `label + ". " + cleaned title`, in place and in order.
 * The page is abstracted to a sequence of list headers (a list with no header
 * element has `None`) and, per list, an array of card titles.
 */
module ConsoleScript {
  import opened Text
  import opened Ordinal
  import opened Optional

  /** The new name of the card at zero-based position `i`. */
  function NewName(i: nat, title: string): string {
    Label(i) + ". " + Clean(title)
  }

  /** The names the renumber pass gives to `titles`: one per title, in order,
      each built from the title's position and the title. */
  function Renumbered(titles: seq<string>): seq<string> {
    seq(|titles|, k requires 0 <= k < |titles| => NewName(k, titles[k]))
  }

  /** A new name starts with the label, and cleaning it gives back the cleaned title:
      the `NN. ` prefix lies wholly in the numbering class. */
  lemma CleanNewName(i: nat, title: string)
    ensures Clean(NewName(i, title)) == Clean(title)
    ensures NewName(i, title)[..|Label(i)| + 2] == Label(i) + ". "
  {
    var p, c := Label(i) + ". ", Clean(title);
    LabelShape(i);
    assert NewName(i, title) == p + c;
    StripNumberingAfterPrefix(p, c);
    CleanShape(title);
    CleanOfCleanShaped(c);
  }

  /** The number at the start of a new name is the card's one-based position. */
  lemma NewNameOrdinal(i: nat, title: string)
    ensures OrdinalOf(NewName(i, title)) == i + 1
  {
    LabelValue(i);
    assert NewName(i, title) == Label(i) + (". " + Clean(title));
    LeadingDigitsOfConcat(Label(i), ". " + Clean(title));
  }

  /** Renaming an already renamed card at the same position changes nothing. */
  lemma NewNameFixedPoint(i: nat, title: string)
    ensures NewName(i, NewName(i, title)) == NewName(i, title)
  {
    CleanNewName(i, title);
  }

  /** Running the pass on its own output, in the same order, gives the same names. */
  lemma RenumberedFixedPoint(titles: seq<string>)
    ensures Renumbered(Renumbered(titles)) == Renumbered(titles)
  {
    var r := Renumbered(titles);
    forall k | 0 <= k < |r|
      ensures Renumbered(r)[k] == r[k]
    {
      NewNameFixedPoint(k, titles[k]);
    }
  }

  /** The pass depends on the titles only through their cleaned forms, so lists
      that differ only in old numbering prefixes converge to the same names. */
  lemma RenumberedDependsOnCleaned(a: seq<string>, b: seq<string>)
    requires |a| == |b|
    requires forall k :: 0 <= k < |a| ==> Clean(a[k]) == Clean(b[k])
    ensures Renumbered(a) == Renumbered(b)
  {
    assert forall k :: 0 <= k < |a| ==> Renumbered(a)[k] == Renumbered(b)[k];
  }

  /** Each new name, cleaned, gives back its cleaned title, and its ordinal is its position. */
  lemma RenumberedReadBack(titles: seq<string>)
    ensures forall k :: 0 <= k < |titles| ==>
      Clean(Renumbered(titles)[k]) == Clean(titles[k]) && OrdinalOf(Renumbered(titles)[k]) == k + 1
  {
    forall k | 0 <= k < |titles|
      ensures Clean(Renumbered(titles)[k]) == Clean(titles[k]) && OrdinalOf(Renumbered(titles)[k]) == k + 1
    {
      CleanNewName(k, titles[k]);
      NewNameOrdinal(k, titles[k]);
    }
  }

  /** The renumber pass: each card title is overwritten in order with its new name. */
  method RenumberTitles(cards: array<string>)
    modifies cards
    ensures cards[..] == Renumbered(old(cards[..]))
  {
    ghost var titles := cards[..];
    var i := 0;
    while i < cards.Length
      invariant 0 <= i <= cards.Length
      invariant forall k :: 0 <= k < i ==> cards[k] == NewName(k, titles[k])
      invariant forall k :: i <= k < cards.Length ==> cards[k] == titles[k]
    {
      var rawText := cards[i];
      var cleanName := Clean(rawText);
      var newName := Label(i) + ". " + cleanName;
      cards[i] := newName;
      i := i + 1;
    }
    assert forall k :: 0 <= k < cards.Length ==> cards[..][k] == Renumbered(titles)[k];
  }

  /** Whether a list header matches the name typed by the user: the header is
      trimmed and lower-cased, the typed name only lower-cased. */
  predicate HeaderMatches(header: Option<string>, name: string) {
    header.Some? && ToLower(Trim(header.value)) == ToLower(name)
  }

  /** `lists.find(...)`: the position of the first list whose header matches. */
  function FindTarget(headers: seq<Option<string>>, name: string): (r: Option<nat>)
    ensures r.Some? ==> r.value < |headers| && HeaderMatches(headers[r.value], name)
    ensures r.Some? ==> forall j :: 0 <= j < r.value ==> !HeaderMatches(headers[j], name)
    ensures r.None? <==> forall j :: 0 <= j < |headers| ==> !HeaderMatches(headers[j], name)
  {
    FindFrom(headers, name, 0)
  }

  /** The search of `find`, from position `from` on. */
  function FindFrom(headers: seq<Option<string>>, name: string, from: nat): (r: Option<nat>)
    requires from <= |headers|
    ensures r.Some? ==> from <= r.value < |headers| && HeaderMatches(headers[r.value], name)
    ensures r.Some? ==> forall j :: from <= j < r.value ==> !HeaderMatches(headers[j], name)
    ensures r.None? <==> forall j :: from <= j < |headers| ==> !HeaderMatches(headers[j], name)
    decreases |headers| - from
  {
    if from == |headers| then None
    else if HeaderMatches(headers[from], name) then Some(from)
    else FindFrom(headers, name, from + 1)
  }

  /** The typed name is not trimmed: one that starts or ends with whitespace matches no list. */
  lemma UntrimmedNameMatchesNothing(headers: seq<Option<string>>, name: string)
    requires name != [] && (IsWhitespace(name[0]) || IsWhitespace(name[|name| - 1]))
    ensures FindTarget(headers, name) == None
  {
    forall j | 0 <= j < |headers| && headers[j].Some?
      ensures ToLower(Trim(headers[j].value)) != ToLower(name)
    {
      TrimmedEnds(headers[j].value);
      UntrimmedNameDiffers(Trim(headers[j].value), name);
    }
  }

  lemma UntrimmedNameDiffers(h: string, name: string)
    requires h == [] || (!IsWhitespace(h[0]) && !IsWhitespace(h[|h| - 1]))
    requires name != [] && (IsWhitespace(name[0]) || IsWhitespace(name[|name| - 1]))
    ensures ToLower(h) != ToLower(name)
  {
    if h != [] && |h| == |name| {
      var lh, ln, n := ToLower(h), ToLower(name), |h| - 1;
      assert lh[0] == LowerChar(h[0]) && lh[n] == LowerChar(h[n]);
      assert ln[0] == LowerChar(name[0]) && ln[n] == LowerChar(name[n]);
      LowerKeepsWhitespace(h[0]);
      LowerKeepsWhitespace(name[0]);
      LowerKeepsWhitespace(h[n]);
      LowerKeepsWhitespace(name[n]);
    }
  }

  /** Matching ignores the case of the typed name: typing it in lower case finds the same list. */
  lemma FindTargetIgnoresCase(headers: seq<Option<string>>, name: string)
    ensures FindTarget(headers, name) == FindTarget(headers, ToLower(name))
  {
    ToLowerIdempotent(name);
    var r, r' := FindTarget(headers, name), FindTarget(headers, ToLower(name));
    assert forall j :: 0 <= j < |headers| ==>
      HeaderMatches(headers[j], name) == HeaderMatches(headers[j], ToLower(name));
    if r.Some? && r'.Some? {
      assert !(r.value < r'.value) && !(r'.value < r.value);
    }
  }

  /** What the script ends with. */
  datatype Outcome =
    | Cancelled                          // the prompt was dismissed or left empty
    | ListNotFound(name: string)         // the "not found" alert
    | Numbered(target: nat, count: nat)  // the "done" alert with the number of cards

  /** The whole script: `answer` is what `prompt` returned (`None` for a dismissed
      prompt), `headers[k]` the header of list `k` and `columns[k]` its card titles. */
  method RunScript(answer: Option<string>, headers: seq<Option<string>>, columns: seq<array<string>>)
    returns (outcome: Outcome)
    requires |headers| == |columns|
    modifies set k | 0 <= k < |columns| :: columns[k]
    ensures outcome == Cancelled <==> answer.None? || answer.value == []
    ensures outcome.ListNotFound? <==>
      answer.Some? && answer.value != [] && FindTarget(headers, answer.value) == None
    ensures outcome.ListNotFound? ==> outcome.name == answer.value
    ensures outcome.Numbered? ==>
      && answer.Some? && FindTarget(headers, answer.value) == Some(outcome.target)
      && outcome.count == columns[outcome.target].Length
      && columns[outcome.target][..] == Renumbered(old(columns[outcome.target][..]))
    ensures forall k :: 0 <= k < |columns| && !(outcome.Numbered? && columns[k] == columns[outcome.target]) ==>
      columns[k][..] == old(columns[k][..])
  {
    if answer.None? || answer.value == [] {
      return Cancelled;
    }
    var listName := answer.value;
    var target := FindTarget(headers, listName);
    if target.None? {
      return ListNotFound(listName);
    }
    var cards := columns[target.value];
    RenumberTitles(cards);
    outcome := Numbered(target.value, cards.Length);
  }
}
