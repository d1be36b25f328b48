/**
  The `TagFilter` component of the page script: per filter root, buttons that
  carry a `data-text` tag and an optional clear control; page-wide, the
  `[data-tags]` content blocks, the first `.tags__container` and the URL. A
  click on a button sets the `tag` query parameter and shows only the blocks of
  that tag; a click on the clear control removes the parameter and shows every
  block. Both run inside a fade transition, modelled as two steps: the click
  handler, which adds `fade`, and the completion, which runs once the browser
  reports the end of the transition.
 */
module TagFilters {
  import opened Wrappers
  import opened SearchParams

  const ParamName := "tag"

  /** A page URL: everything before the query, the query as pairs, and the fragment. */
  datatype Url = Url(base: string, query: seq<Param>, fragment: string)

  /** The query's pairs joined as `name=value&...` (percent-encoding is not modelled). */
  function SerializePairs(q: seq<Param>): string
  {
    if q == [] then ""
    else if |q| == 1 then q[0].name + "=" + q[0].value
    else q[0].name + "=" + q[0].value + "&" + SerializePairs(q[1..])
  }

  /** `location.href`: an empty query is left out together with its `?`. */
  function Href(u: Url): string
  {
    u.base + (if u.query == [] then "" else "?" + SerializePairs(u.query)) + u.fragment
  }

  predicate OccursAt(s: string, sub: string, i: int)
  {
    0 <= i <= |s| - |sub| && s[i..i + |sub|] == sub
  }

  predicate Contains(s: string, sub: string)
  {
    exists i :: 0 <= i <= |s| - |sub| && OccursAt(s, sub, i)
  }

  /**
    `isOverviewPage`: true when the href does NOT contain `tags` anywhere, query
    and fragment included. Client-side filtering happens only when it is false.
   */
  predicate IsOverviewPage(u: Url)
    ensures IsOverviewPage(u) ==> !Contains(u.base, "tags") && !Contains(u.fragment, "tags")
  {
    TagsInPartIsInHref(u);
    !Contains(Href(u), "tags")
  }

  /**
    An element of a filter root: its `data-text` value (None when it has no such
    attribute), whether it has the class `tags__btn`, and whether it has `active`.
   */
  datatype Control = Control(dataText: Option<string>, isTagButton: bool, active: bool)

  /** An element carrying `data-tags`, anywhere in the document, with its `d-none` flag. */
  datatype Block = Block(dataTags: string, hidden: bool)

  /** The first `.tags__container` of the document, with its `fade` and `show` classes. */
  datatype Container = Container(fade: bool, show: bool)

  /** The state of one filter root at page load. */
  datatype Root = Root(controls: seq<Control>, clear: Option<bool>)

  /** The index of the first element satisfying `p`, as `querySelector` finds it. */
  function FirstIndex<T>(s: seq<T>, p: T -> bool): (r: Option<nat>)
    ensures r.Some? ==> r.value < |s| && p(s[r.value]) && forall j :: 0 <= j < r.value ==> !p(s[j])
    ensures r.None? ==> forall j :: 0 <= j < |s| ==> !p(s[j])
  {
    if s == [] then None
    else if p(s[0]) then Some(0)
    else
      var r := FirstIndex(s[1..], p);
      if r.Some? then Some(r.value + 1) else None
  }

  /** Matches `[data-text="tag"]`. */
  function HasText(tag: string): Control -> bool
  {
    (c: Control) => c.dataText == Some(tag)
  }

  /** Matches `.tags__btn.active`. */
  function IsActiveButton(): Control -> bool
  {
    (c: Control) => c.isTagButton && c.active
  }

  /** `String(v)` for an attribute read through `dataset?.text`. */
  function JsString(v: Option<string>): string
  {
    match v
    case Some(s) => s
    case None => "undefined"
  }

  /**
    `newTag || this.getParam()` as interpolated into a selector: an absent or
    empty argument falls back to the parameter, and a missing parameter reads
    as `null`.
   */
  function ResolveTag(newTag: Option<string>, param: Option<string>): (tag: string)
    ensures newTag.Some? && newTag.value != "" ==> tag == newTag.value
    ensures (newTag.None? || newTag.value == "") && param.Some? ==> tag == param.value
    ensures (newTag.None? || newTag.value == "") && param.None? ==> tag == "null"
  {
    if newTag.Some? && newTag.value != "" then newTag.value
    else match param
      case Some(v) => v
      case None => "null"
  }

  /** A value whose `hasParam` is true: the `tag` parameter is present and not empty. */
  predicate TagParamSet(q: seq<Param>)
    ensures TagParamSet(q) <==> GetAll(q, ParamName) != [] && GetAll(q, ParamName)[0] != ""
  {
    GetIsFirstOfGetAll(q, ParamName);
    Get(q, ParamName).Some? && Get(q, ParamName).value != ""
  }

  /** The clear control after its `d-none` class is set or removed, when it exists. */
  function WithClearHidden(clear: Option<bool>, hidden: bool): Option<bool>
  {
    match clear
    case None => None
    case Some(_) => Some(hidden)
  }

  /** One control after the loop of `setActive` that removes `active` from every `[data-text]`. */
  function Cleared(c: Control): Control
  {
    if c.dataText.Some? then c.(active := false) else c
  }

  function ClearActive(cs: seq<Control>): seq<Control>
  {
    seq(|cs|, i requires 0 <= i < |cs| => Cleared(cs[i]))
  }

  /** The controls after `setActive(tag)`: cleared, then the first `[data-text="tag"]` made active. */
  function Activate(cs: seq<Control>, tag: string): (r: seq<Control>)
    ensures |r| == |cs|
    ensures forall i :: 0 <= i < |cs| ==>
              r[i].dataText == cs[i].dataText && r[i].isTagButton == cs[i].isTagButton
    ensures forall i :: 0 <= i < |cs| && cs[i].dataText.None? ==> r[i] == cs[i]
    ensures forall i :: 0 <= i < |cs| && cs[i].dataText.Some? ==>
              (r[i].active <==> FirstIndex(cs, HasText(tag)) == Some(i))
    ensures forall i, j :: (0 <= i < |cs| && 0 <= j < |cs| && r[i].dataText.Some? && r[j].dataText.Some? &&
                            r[i].active && r[j].active) ==> i == j
  {
    var cleared := ClearActive(cs);
    FirstIndexAgree(cs, cleared, HasText(tag));
    match FirstIndex(cleared, HasText(tag))
    case None => cleared
    case Some(k) => cleared[k := cleared[k].(active := true)]
  }

  /** `querySelector` gives the same answer on two lists that agree on what it tests. */
  lemma FirstIndexAgree<T>(s: seq<T>, t: seq<T>, p: T -> bool)
    requires |s| == |t|
    requires forall i :: 0 <= i < |s| ==> p(s[i]) == p(t[i])
    ensures FirstIndex(s, p) == FirstIndex(t, p)
  {
  }

  function HideAll(bs: seq<Block>): seq<Block>
  {
    seq(|bs|, i requires 0 <= i < |bs| => bs[i].(hidden := true))
  }

  function ShowAll(bs: seq<Block>): seq<Block>
  {
    seq(|bs|, i requires 0 <= i < |bs| => bs[i].(hidden := false))
  }

  function UnhideMatching(bs: seq<Block>, tag: string): seq<Block>
  {
    seq(|bs|, i requires 0 <= i < |bs| => if bs[i].dataTags == tag then bs[i].(hidden := false) else bs[i])
  }

  /** `filterByTag(tag)`: hide every block, then unhide those whose `data-tags` is `tag`. */
  function FilterBlocks(bs: seq<Block>, tag: string): (r: seq<Block>)
    ensures |r| == |bs|
    ensures forall i :: 0 <= i < |bs| ==> r[i].dataTags == bs[i].dataTags
    ensures forall i :: 0 <= i < |bs| ==> (!r[i].hidden <==> bs[i].dataTags == tag)
  {
    UnhideMatching(HideAll(bs), tag)
  }

  /** `resetTags`: removes `active` from the first `.tags__btn.active` of the root, and from nothing else. */
  function DeactivateFirstActive(cs: seq<Control>): (r: seq<Control>)
    ensures |r| == |cs|
    ensures forall i :: 0 <= i < |cs| ==> r[i].(active := cs[i].active) == cs[i]
    ensures forall i :: 0 <= i < |cs| && r[i].active != cs[i].active ==>
              FirstIndex(cs, IsActiveButton()) == Some(i) && !r[i].active
    ensures FirstIndex(cs, IsActiveButton()).Some? ==> !r[FirstIndex(cs, IsActiveButton()).value].active
  {
    match FirstIndex(cs, IsActiveButton())
    case None => cs
    case Some(k) => cs[k := cs[k].(active := false)]
  }

  predicate AtMostOneActiveButton(cs: seq<Control>)
  {
    forall i, j :: 0 <= i < |cs| && 0 <= j < |cs| && IsActiveButton()(cs[i]) && IsActiveButton()(cs[j]) ==> i == j
  }

  /** When at most one tag button was active, none is active after `resetTags`. */
  lemma ResetTagsClearsSingleActive(cs: seq<Control>)
    requires AtMostOneActiveButton(cs)
    ensures forall i :: 0 <= i < |cs| ==> !IsActiveButton()(DeactivateFirstActive(cs)[i])
  {
  }

  /** Only the first active tag button is reset: any later active tag button stays active. */
  lemma ResetTagsLeavesLaterActive(cs: seq<Control>, i: nat, j: nat)
    requires i < j < |cs| && IsActiveButton()(cs[i]) && IsActiveButton()(cs[j])
    ensures DeactivateFirstActive(cs)[j].active
  {
  }

  /** The blocks shown after `filterByTag(tag)` do not change when it is applied again. */
  lemma FilterBlocksTwice(bs: seq<Block>, tag: string)
    ensures FilterBlocks(FilterBlocks(bs, tag), tag) == FilterBlocks(bs, tag)
  {
  }

  /** The active state `setActive(tag)` leaves does not change when it is applied again. */
  lemma ActivateTwice(cs: seq<Control>, tag: string)
    ensures Activate(Activate(cs, tag), tag) == Activate(cs, tag)
  {
  }

  /**
    `setActive(newTag)` twice leaves the root, the blocks and the clear control as
    once: it does not touch the URL, so the second call resolves the same tag.
   */
  lemma SetActiveTwice(cs: seq<Control>, clear: Option<bool>, bs: seq<Block>, q: seq<Param>, newTag: Option<string>)
    ensures var tag := ResolveTag(newTag, Get(q, ParamName));
            Activate(Activate(cs, tag), tag) == Activate(cs, tag) &&
            FilterBlocks(FilterBlocks(bs, tag), tag) == FilterBlocks(bs, tag) &&
            WithClearHidden(WithClearHidden(clear, false), false) == WithClearHidden(clear, false)
  {
  }

  /**
    On a button-click completion `setParam` runs before `setActive`, so even
    when the button's `data-text` is empty or missing, `setActive` works with
    exactly the value just stored in the URL.
   */
  lemma ClickTagIsStoredParam(q: seq<Param>, text: Option<string>)
    ensures ResolveTag(text, Get(Set(q, ParamName, JsString(text)), ParamName)) == JsString(text)
  {
  }

  /**
    A root with buttons `go` and `rust` over blocks tagged `go`, `rust`, `go`: completing a click on `rust` shows only the `rust` block,
    activates only its button and stores `tag=rust`; completing a click on the
    clear control then shows all three blocks and drops the parameter.
   */
  lemma GoRustScenario()
    ensures var cs := [Control(Some("go"), true, false), Control(Some("rust"), true, false)];
            var bs := [Block("go", false), Block("rust", false), Block("go", false)];
            var value := JsString(cs[1].dataText);
            var q := Set([], ParamName, value);
            var clicked := Activate(cs, value);
            var shown := FilterBlocks(bs, value);
            Get(q, ParamName) == Some("rust") &&
            !clicked[0].active && clicked[1].active &&
            shown[0].hidden && !shown[1].hidden && shown[2].hidden &&
            ShowAll(shown) == [Block("go", false), Block("rust", false), Block("go", false)] &&
            !DeactivateFirstActive(clicked)[1].active &&
            Get(Delete(q, ParamName), ParamName) == None
  {
  }

  /** `tags` in the part before the query or in the fragment is `tags` in the href. */
  lemma TagsInPartIsInHref(u: Url)
    ensures Contains(u.base, "tags") ==> Contains(Href(u), "tags")
    ensures Contains(u.fragment, "tags") ==> Contains(Href(u), "tags")
  {
    var h := Href(u);
    var prefix := h[..|h| - |u.fragment|];
    assert h == u.base + h[|u.base|..];
    assert h == prefix + u.fragment;
    if Contains(u.base, "tags") {
      var i :| 0 <= i <= |u.base| - 4 && OccursAt(u.base, "tags", i);
      assert h[i..i + 4] == u.base[i..i + 4];
      assert OccursAt(h, "tags", i);
    }
    if Contains(u.fragment, "tags") {
      var i :| 0 <= i <= |u.fragment| - 4 && OccursAt(u.fragment, "tags", i);
      var k := |prefix| + i;
      assert h[k..k + 4] == u.fragment[i..i + 4];
      assert OccursAt(h, "tags", k);
    }
  }

  /** The test is on the whole href: a query value `tags` turns any page into a filter page. */
  lemma QueryValueMakesFilterPage(base: string)
    ensures !IsOverviewPage(Url(base, [Param(ParamName, "tags")], ""))
  {
    var h := Href(Url(base, [Param(ParamName, "tags")], ""));
    assert h == base + "?tag=tags";
    assert h[|base| + 5..|base| + 9] == "tags";
    assert OccursAt(h, "tags", |base| + 5);
  }

  /** A root's controls once its instance is constructed over a URL with query `q`. */
  function ControlsAtLoad(cs: seq<Control>, q: seq<Param>): seq<Control>
  {
    if TagParamSet(q) then Activate(cs, Get(q, ParamName).value) else cs
  }

  /** The blocks once an instance is constructed over a URL with query `q`. */
  function BlocksAtLoad(bs: seq<Block>, q: seq<Param>): seq<Block>
  {
    if TagParamSet(q) then FilterBlocks(bs, Get(q, ParamName).value) else bs
  }

  /** A root's clear control once its instance is constructed over a URL with query `q`. */
  function ClearAtLoad(clear: Option<bool>, q: seq<Param>): Option<bool>
  {
    if TagParamSet(q) then WithClearHidden(clear, false) else clear
  }

  /** The page-wide state the filter instances share. */
  class Page {
    var url: Url
    /** The entries `history.pushState` has added, oldest first. */
    var history: seq<Url>
    /** Every `[data-tags]` element of the document, in document order. */
    var blocks: seq<Block>
    /** The first `.tags__container` of the document, when there is one. */
    var container: Option<Container>

    constructor (url: Url, blocks: seq<Block>, container: Option<Container>)
      ensures this.url == url && history == [] && this.blocks == blocks && this.container == container
    {
      this.url := url;
      this.history := [];
      this.blocks := blocks;
      this.container := container;
    }
  }

  class TagFilter {
    const page: Page
    /** The elements of the root, in document order. */
    var controls: seq<Control>
    /** The first `.tags__clear` of the root with its `d-none` flag, when there is one. */
    var clear: Option<bool>
    /** Whether `bindEvents` attached the clear control's click listener. */
    const clearListenerBound: bool

    /** `getParam`. */
    function GetParam(): (r: Option<string>)
      reads page
      ensures r.None? <==> GetAll(page.url.query, ParamName) == []
      ensures r.Some? ==> r.value == GetAll(page.url.query, ParamName)[0]
    {
      GetIsFirstOfGetAll(page.url.query, ParamName);
      Get(page.url.query, ParamName)
    }

    constructor (page: Page, controls: seq<Control>, clear: Option<bool>)
      modifies page
      ensures this.page == page
      ensures clearListenerBound == !IsOverviewPage(old(page.url))
      ensures page.url == old(page.url) && page.history == old(page.history)
      ensures page.container == old(page.container)
      ensures var q := old(page.url.query);
              if TagParamSet(q) then
                var tag := Get(q, ParamName).value;
                this.controls == Activate(controls, tag) &&
                page.blocks == FilterBlocks(old(page.blocks), tag) &&
                this.clear == WithClearHidden(clear, false)
              else
                this.controls == controls && page.blocks == old(page.blocks) && this.clear == clear
    {
      this.page := page;
      this.controls := controls;
      this.clear := clear;
      this.clearListenerBound := !IsOverviewPage(page.url);
      new;
      if TagParamSet(page.url.query) {
        SetActive(None);
      }
    }

    /** `TagFilter.init`: one instance per filter root, in document order. */
    static method Init(page: Page, roots: seq<Root>) returns (instances: seq<TagFilter>)
      modifies page
      ensures |instances| == |roots|
      ensures forall i :: 0 <= i < |roots| ==> fresh(instances[i]) && instances[i].page == page
      ensures page.url == old(page.url) && page.history == old(page.history)
      ensures page.container == old(page.container)
      ensures forall i :: 0 <= i < |roots| ==>
                instances[i].controls == ControlsAtLoad(roots[i].controls, old(page.url.query))
      ensures forall i :: 0 <= i < |roots| ==>
                instances[i].clear == ClearAtLoad(roots[i].clear, old(page.url.query))
      ensures forall i :: 0 <= i < |roots| ==> instances[i].clearListenerBound == !IsOverviewPage(old(page.url))
      ensures page.blocks == if roots == [] then old(page.blocks) else BlocksAtLoad(old(page.blocks), old(page.url.query))
    {
      instances := [];
      ghost var q := page.url.query;
      ghost var blocks := page.blocks;
      for i := 0 to |roots|
        invariant |instances| == i
        invariant forall j :: 0 <= j < i ==> fresh(instances[j]) && instances[j].page == page
        invariant page.url == old(page.url) && page.history == old(page.history)
        invariant page.container == old(page.container)
        invariant forall j :: 0 <= j < i ==> instances[j].controls == ControlsAtLoad(roots[j].controls, q)
        invariant forall j :: 0 <= j < i ==> instances[j].clear == ClearAtLoad(roots[j].clear, q)
        invariant forall j :: 0 <= j < i ==> instances[j].clearListenerBound == !IsOverviewPage(old(page.url))
        invariant page.blocks == if i == 0 then blocks else BlocksAtLoad(blocks, q)
      {
        if TagParamSet(q) && i > 0 {
          FilterBlocksTwice(blocks, Get(q, ParamName).value);
        }
        var instance := new TagFilter(page, roots[i].controls, roots[i].clear);
        instances := instances + [instance];
      }
    }

    /** `setParam(value)`: `set` on the query, then a new history entry. */
    method SetParam(value: string)
      modifies page
      ensures page.url == old(page.url).(query := Set(old(page.url.query), ParamName, value))
      ensures page.history == old(page.history) + [page.url]
      ensures page.blocks == old(page.blocks) && page.container == old(page.container)
    {
      page.url := page.url.(query := Set(page.url.query, ParamName, value));
      page.history := page.history + [page.url];
    }

    /** `removeParam`: `delete` on the query, then a new history entry. */
    method RemoveParam()
      modifies page
      ensures page.url == old(page.url).(query := Delete(old(page.url.query), ParamName))
      ensures page.history == old(page.history) + [page.url]
      ensures page.blocks == old(page.blocks) && page.container == old(page.container)
    {
      page.url := page.url.(query := Delete(page.url.query, ParamName));
      page.history := page.history + [page.url];
    }

    method ShowClear()
      modifies this
      ensures clear == WithClearHidden(old(clear), false) && controls == old(controls)
    {
      if clear.Some? {
        clear := Some(false);
      }
    }

    method HideClear()
      modifies this
      ensures clear == WithClearHidden(old(clear), true) && controls == old(controls)
    {
      if clear.Some? {
        clear := Some(true);
      }
    }

    method HideAllDataTags()
      modifies page
      ensures page.blocks == HideAll(old(page.blocks))
      ensures page.url == old(page.url) && page.history == old(page.history)
      ensures page.container == old(page.container)
    {
      ghost var before := page.blocks;
      var i := 0;
      while i < |page.blocks|
        invariant |page.blocks| == |before| && 0 <= i <= |before|
        invariant forall j :: 0 <= j < i ==> page.blocks[j] == before[j].(hidden := true)
        invariant forall j :: i <= j < |before| ==> page.blocks[j] == before[j]
        invariant page.url == old(page.url) && page.history == old(page.history)
        invariant page.container == old(page.container)
      {
        page.blocks := page.blocks[i := page.blocks[i].(hidden := true)];
        i := i + 1;
      }
    }

    method ShowAllDataTags()
      modifies page
      ensures page.blocks == ShowAll(old(page.blocks))
      ensures page.url == old(page.url) && page.history == old(page.history)
      ensures page.container == old(page.container)
    {
      ghost var before := page.blocks;
      var i := 0;
      while i < |page.blocks|
        invariant |page.blocks| == |before| && 0 <= i <= |before|
        invariant forall j :: 0 <= j < i ==> page.blocks[j] == before[j].(hidden := false)
        invariant forall j :: i <= j < |before| ==> page.blocks[j] == before[j]
        invariant page.url == old(page.url) && page.history == old(page.history)
        invariant page.container == old(page.container)
      {
        page.blocks := page.blocks[i := page.blocks[i].(hidden := false)];
        i := i + 1;
      }
    }

    /** `filterByTag(tag)`: every block hidden, then those of `tag` shown. */
    method FilterByTag(tag: string)
      modifies page
      ensures page.blocks == FilterBlocks(old(page.blocks), tag)
      ensures page.url == old(page.url) && page.history == old(page.history)
      ensures page.container == old(page.container)
    {
      HideAllDataTags();
      ghost var before := page.blocks;
      var i := 0;
      while i < |page.blocks|
        invariant |page.blocks| == |before| && 0 <= i <= |before|
        invariant forall j :: 0 <= j < i ==>
                    page.blocks[j] == if before[j].dataTags == tag then before[j].(hidden := false) else before[j]
        invariant forall j :: i <= j < |before| ==> page.blocks[j] == before[j]
        invariant page.url == old(page.url) && page.history == old(page.history)
        invariant page.container == old(page.container)
      {
        if page.blocks[i].dataTags == tag {
          page.blocks := page.blocks[i := page.blocks[i].(hidden := false)];
        }
        i := i + 1;
      }
      assert page.blocks == UnhideMatching(before, tag);
    }

    /**
      `setActive(newTag)`: clears `active` on every `[data-text]` of the root,
      activates the first whose `data-text` is the tag, filters the blocks of the
      whole document and shows the clear control.
     */
    method SetActive(newTag: Option<string>)
      modifies this, page
      ensures var tag := ResolveTag(newTag, old(GetParam()));
              controls == Activate(old(controls), tag) &&
              page.blocks == FilterBlocks(old(page.blocks), tag) &&
              clear == WithClearHidden(old(clear), false)
      ensures page.url == old(page.url) && page.history == old(page.history)
      ensures page.container == old(page.container)
    {
      var tag := ResolveTag(newTag, GetParam());
      ghost var before := controls;
      var i := 0;
      while i < |controls|
        invariant |controls| == |before| && 0 <= i <= |before|
        invariant forall j :: 0 <= j < i ==> controls[j] == Cleared(before[j])
        invariant forall j :: i <= j < |before| ==> controls[j] == before[j]
        invariant clear == old(clear) && page.blocks == old(page.blocks)
        invariant page.url == old(page.url) && page.history == old(page.history)
        invariant page.container == old(page.container)
      {
        if controls[i].dataText.Some? {
          controls := controls[i := controls[i].(active := false)];
        }
        i := i + 1;
      }
      assert controls == ClearActive(before);
      var k := FirstIndex(controls, HasText(tag));
      if k.Some? {
        controls := controls[k.value := controls[k.value].(active := true)];
      }
      FilterByTag(tag);
      ShowClear();
    }

    method ResetTags()
      modifies this
      ensures controls == DeactivateFirstActive(old(controls)) && clear == old(clear)
    {
      var k := FirstIndex(controls, IsActiveButton());
      if k.Some? {
        controls := controls[k.value := controls[k.value].(active := false)];
      }
    }

    /**
      The first half of `enableLoading`: adds `fade` to the document's first
      container and starts waiting for its transition to end. Without a
      container the promise rejects and nothing follows.
     */
    method EnableLoading() returns (started: bool)
      modifies page
      ensures started <==> old(page.container).Some?
      ensures started ==> page.container == Some(old(page.container).value.(fade := true))
      ensures !started ==> page.container == old(page.container)
      ensures page.url == old(page.url) && page.history == old(page.history)
      ensures page.blocks == old(page.blocks)
    {
      match page.container
      case None =>
        started := false;
      case Some(c) =>
        page.container := Some(c.(fade := true));
        started := true;
    }

    /** `disableLoading`: adds `show`, then removes `fade` and `show`. */
    method DisableLoading()
      requires page.container.Some?
      modifies page
      ensures page.container == Some(Container(false, false))
      ensures page.url == old(page.url) && page.history == old(page.history)
      ensures page.blocks == old(page.blocks)
    {
      var c := page.container.value;
      c := c.(show := true);
      c := c.(fade := false);
      c := c.(show := false);
      page.container := Some(c);
    }

    /**
      `handleClick` on the tag button at `index`: on an overview page the click
      is left to the browser; otherwise loading begins. `pending` says whether a
      completion can follow.
     */
    method HandleClick(index: nat) returns (pending: bool)
      requires index < |controls| && controls[index].isTagButton
      modifies page
      ensures pending <==> !IsOverviewPage(old(page.url)) && old(page.container).Some?
      ensures pending ==> page.container == Some(old(page.container).value.(fade := true))
      ensures !pending ==> page.container == old(page.container)
      ensures page.url == old(page.url) && page.history == old(page.history)
      ensures page.blocks == old(page.blocks)
    {
      pending := false;
      if !IsOverviewPage(page.url) {
        pending := EnableLoading();
      }
    }

    /**
      The `.then` body of `handleClick`, once the transition has ended: stores the
      button's `data-text` in the URL, applies it, and ends the loading state.
     */
    method CompleteClick(index: nat)
      requires index < |controls| && page.container.Some?
      modifies this, page
      ensures var value := JsString(old(controls[index].dataText));
              page.url == old(page.url).(query := Set(old(page.url.query), ParamName, value)) &&
              GetParam() == Some(value) &&
              controls == Activate(old(controls), value) &&
              page.blocks == FilterBlocks(old(page.blocks), value) &&
              clear == WithClearHidden(old(clear), false)
      ensures page.history == old(page.history) + [page.url]
      ensures page.container == Some(Container(false, false))
    {
      var tag := controls[index].dataText;
      SetParam(JsString(tag));
      ClickTagIsStoredParam(old(page.url.query), tag);
      GetSetSame(old(page.url.query), ParamName, JsString(tag));
      SetActive(tag);
      DisableLoading();
    }

    /** `handleCloseClick`, bound only when the page was not an overview page. */
    method HandleCloseClick() returns (pending: bool)
      requires clearListenerBound && clear.Some?
      modifies page
      ensures pending <==> old(page.container).Some?
      ensures pending ==> page.container == Some(old(page.container).value.(fade := true))
      ensures !pending ==> page.container == old(page.container)
      ensures page.url == old(page.url) && page.history == old(page.history)
      ensures page.blocks == old(page.blocks)
    {
      pending := EnableLoading();
    }

    /**
      The `.then` body of `handleCloseClick`: hides the clear control, shows every
      block, resets the first active button, drops the `tag` parameter and ends
      the loading state.
     */
    method CompleteCloseClick()
      requires page.container.Some?
      modifies this, page
      ensures clear == WithClearHidden(old(clear), true)
      ensures page.blocks == ShowAll(old(page.blocks))
      ensures controls == DeactivateFirstActive(old(controls))
      ensures page.url == old(page.url).(query := Delete(old(page.url.query), ParamName))
      ensures GetParam() == None
      ensures page.history == old(page.history) + [page.url]
      ensures page.container == Some(Container(false, false))
    {
      HideClear();
      ShowAllDataTags();
      ResetTags();
      RemoveParam();
      GetDeleteSame(old(page.url.query), ParamName);
      DisableLoading();
    }
  }
}
