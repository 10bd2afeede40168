/**
 * The leaderboard's page arithmetic: how many pages a count of records
 * makes, how a requested page is clamped, which slice of the ranking a page
 * shows, and the `"levtop_<page>"` callback data of its navigation buttons.
 */
module Paging {
  import opened Results
  import opened Keys

  const PageSize: nat := 10

  /** `max(1, (total + 9) // 10)`: never zero, and just enough pages of ten for `total`. */
  function PageCount(total: nat): (pages: nat)
    ensures pages >= 1
    ensures total <= pages * PageSize
    ensures pages == 1 || (pages - 1) * PageSize < total
  {
    var ceiling := (total + 9) / 10;
    if ceiling > 1 then ceiling else 1
  }

  /** `max(1, min(page, pages))`: out-of-range requests land on the nearest page. */
  function ClampPage(page: int, pages: nat): (p: nat)
    ensures 1 <= p
    ensures pages >= 1 ==> p <= pages
    ensures 1 <= page <= pages ==> p == page
    ensures page < 1 ==> p == 1
    ensures page > pages ==> p == if pages >= 1 then pages else 1
  {
    var lower := if page < pages then page else pages;
    if lower > 1 then lower else 1
  }

  /** `.skip((page - 1) * 10)`: the number of ranked records before `page`. */
  function Skip(page: nat): nat
    requires page >= 1
  {
    (page - 1) * PageSize
  }

  /** `.skip(...).limit(10)` over a ranking: at most ten records, empty past the end. */
  function PageSlice<T>(ranked: seq<T>, page: nat): (docs: seq<T>)
    requires page >= 1
    ensures |docs| <= PageSize
    ensures Skip(page) <= |ranked| ==> |docs| == if |ranked| - Skip(page) < PageSize then |ranked| - Skip(page) else PageSize
    ensures forall i :: 0 <= i < |docs| ==> Skip(page) + i < |ranked| && docs[i] == ranked[Skip(page) + i]
  {
    var start := if Skip(page) < |ranked| then Skip(page) else |ranked|;
    var stop := if start + PageSize < |ranked| then start + PageSize else |ranked|;
    ranked[start..stop]
  }

  /**
   * Pages tile the ranking: the record at index `k` is on page `k / 10 + 1`,
   * that page exists and is left alone by clamping, and its window of ten
   * holds `k`; no other page holds it.
   */
  lemma PageOfIndex(total: nat, k: nat)
    requires k < total
    ensures var p := k / PageSize + 1;
      && p <= PageCount(total)
      && ClampPage(p, PageCount(total)) == p
      && Skip(p) <= k < Skip(p) + PageSize
    ensures forall q: nat :: q >= 1 && Skip(q) <= k < Skip(q) + PageSize ==> q == k / PageSize + 1
  {
    var p := k / PageSize + 1;
    var pages := PageCount(total);
    assert Skip(p) == k - k % PageSize;
    forall q: nat | q >= 1 && Skip(q) <= k < Skip(q) + PageSize
      ensures q == p
    {
      assert (q - 1) * PageSize <= k < q * PageSize;
    }
  }

  /** `f"levtop_{n}"`: the callback data of a navigation button. */
  function CallbackData(page: int): string
  {
    "levtop_" + IntToString(page)
  }

  /** `int(data.split("_")[1])`; `None` where Python raises. */
  function ParseCallback(data: string): Option<int>
  {
    var parts := Split(data, '_');
    if |parts| >= 2 then ParseInt(parts[1]) else None
  }

  /** The callback handler reads back exactly the page a button was built with. */
  lemma CallbackRoundTrip(page: int)
    ensures ParseCallback(CallbackData(page)) == Some(page)
  {
    var data := CallbackData(page);
    var digits := IntToString(page);
    IntToStringHasNoUnderscore(page);
    assert data == "levtop" + ['_'] + digits;
    SplitNAfterField("levtop", digits, '_', |data| - 1);
    SplitNWithoutSep(digits, '_', |data| - 1);
    IntToStringRoundTrip(page);
  }

  /** The label of the button to the previous page. */
  const BackLabel: string := "\U{25C0}\U{FE0F}"

  /** The label of the button to the next page. */
  const ForwardLabel: string := "\U{25B6}\U{FE0F}"

  datatype Button = Button(text: string, data: string)

  /** The buttons under a page: back when a page precedes it, forward when one follows. */
  function NavButtons(page: nat, pages: nat): (buttons: seq<Button>)
    ensures |buttons| == (if page > 1 then 1 else 0) + (if page < pages then 1 else 0)
    ensures page > 1 ==> buttons[0] == Button(BackLabel, CallbackData(page - 1))
    ensures page < pages ==> buttons[|buttons| - 1] == Button(ForwardLabel, CallbackData(page + 1))
  {
    (if page > 1 then [Button(BackLabel, CallbackData(page - 1))] else [])
    + (if page < pages then [Button(ForwardLabel, CallbackData(page + 1))] else [])
  }

  /** Following a button leads to an existing neighbouring page, which clamping leaves alone. */
  lemma NavButtonsStayInRange(page: nat, pages: nat, b: Button)
    requires 1 <= page <= pages
    requires b in NavButtons(page, pages)
    ensures ParseCallback(b.data).Some?
    ensures var target := ParseCallback(b.data).value;
      && 1 <= target <= pages
      && (target == page - 1 || target == page + 1)
      && ClampPage(target, pages) == target
  {
    CallbackRoundTrip(page - 1);
    CallbackRoundTrip(page + 1);
  }
}
