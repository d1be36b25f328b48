/**
  The header state synchroniser of the page script: four page-wide flags and the
  header's `is-open`/`is-hovering` classes, driven by hover events, clicks on the
  document, the delayed-click callback and mutation batches from the mega-menu
  and the language dropdown. Each handler is a pure transition on `HeaderState`
  here; the class `HeaderSynchronizer` holds the same state in fields and its
  methods are proved to perform those transitions.
 */
module Header {
  import opened Wrappers

  const OpenClass := "is-open"
  const HoveringClass := "is-hovering"
  /** The class the dropdown widget puts on its menu while it is closed. */
  const UnfoldHiddenClass := "hs-unfold-hidden"
  const MouseOver := "mouseover"
  const StyleAttribute := "style"
  const ClassAttribute := "class"

  /** `isVisible`: an element counts as visible unless its computed `display` is `none`. */
  predicate IsVisible(display: string)
  {
    display != "none"
  }

  /** Some element among those matched is visible. */
  predicate AnyVisible(displays: seq<string>)
  {
    exists i :: 0 <= i < |displays| && IsVisible(displays[i])
  }

  /**
    `isOpen(selector)`: scans every matched element, given by its computed
    `display`, and reports whether one of them is visible.
   */
  method IsOpen(displays: seq<string>) returns (open: bool)
    ensures open <==> AnyVisible(displays)
  {
    open := false;
    for i := 0 to |displays|
      invariant open <==> exists j :: 0 <= j < i && IsVisible(displays[j])
    {
      if IsVisible(displays[i]) {
        open := true;
      }
    }
  }

  /**
    One record of a mutation batch: the changed attribute (None for a child-list
    record) and the classes of the mutated node.
   */
  datatype MutationRecord = MutationRecord(attributeName: Option<string>, targetClasses: set<string>)

  datatype HeaderState = HeaderState(
    headerMode: bool,
    dropdownMode: bool,
    megaMenuOpen: bool,
    languageDropdownOpen: bool,
    classes: set<string>)

  /** The state at page load: every flag false, the header's classes as served. */
  function Initial(classes: set<string>): HeaderState
  {
    HeaderState(false, false, false, false, classes)
  }

  predicate OverlayOpen(s: HeaderState)
  {
    s.megaMenuOpen || s.languageDropdownOpen
  }

  /**
    The invariant the handlers keep: `headerMode` is set exactly when the header
    carries `is-open`, and it carries `is-open` only while an overlay is open.
   */
  predicate Consistent(s: HeaderState)
  {
    (s.headerMode <==> OpenClass in s.classes) &&
    (OpenClass in s.classes ==> OverlayOpen(s))
  }

  /** Every flag other than `headerMode` and the header's classes are equal. */
  predicate SameOverlayFlags(s: HeaderState, t: HeaderState)
  {
    s.dropdownMode == t.dropdownMode &&
    s.megaMenuOpen == t.megaMenuOpen &&
    s.languageDropdownOpen == t.languageDropdownOpen
  }

  /** `resetHeaderState`. */
  function Reset(s: HeaderState): (r: HeaderState)
    ensures !r.headerMode && OpenClass !in r.classes && HoveringClass !in r.classes
    ensures SameOverlayFlags(s, r) && Consistent(r)
    ensures forall c :: c != OpenClass && c != HoveringClass ==> (c in r.classes <==> c in s.classes)
  {
    s.(headerMode := false, classes := s.classes - {OpenClass, HoveringClass})
  }

  /** `handleHeaderClick`: re-evaluates the open state from the two overlay flags. */
  function Click(s: HeaderState): (r: HeaderState)
    ensures r.headerMode == OverlayOpen(s)
    ensures OpenClass in r.classes <==> OverlayOpen(s)
    ensures !OverlayOpen(s) ==> HoveringClass !in r.classes
    ensures OverlayOpen(s) ==> (HoveringClass in r.classes <==> HoveringClass in s.classes)
    ensures forall c :: c != OpenClass && c != HoveringClass ==> (c in r.classes <==> c in s.classes)
    ensures SameOverlayFlags(s, r) && Consistent(r)
  {
    if OverlayOpen(s) then s.(headerMode := true, classes := s.classes + {OpenClass})
    else Reset(s)
  }

  /** `handleHeaderHover` for an event of type `eventType` (`mouseover` or `mouseout`). */
  function Hover(s: HeaderState, eventType: string): (r: HeaderState)
    ensures eventType == MouseOver ==> HoveringClass in r.classes
    ensures eventType != MouseOver ==>
              (HoveringClass in r.classes <==> HoveringClass in s.classes && s.megaMenuOpen)
    ensures forall c :: c != HoveringClass ==> (c in r.classes <==> c in s.classes)
    ensures r.headerMode == s.headerMode && SameOverlayFlags(s, r)
  {
    if eventType == MouseOver then s.(classes := s.classes + {HoveringClass})
    else if !s.megaMenuOpen then s.(classes := s.classes - {HoveringClass})
    else s
  }

  /** `handleHeaderOutsideClick`: acts only while the header is held open. */
  function OutsideClick(s: HeaderState): (r: HeaderState)
    ensures !s.headerMode ==> r == s
    ensures s.headerMode ==> r.headerMode == OverlayOpen(s) && SameOverlayFlags(s, r)
    ensures s.headerMode ==> r == Click(s)
  {
    if s.headerMode then Click(s) else s
  }

  /**
    `handleClickOutside('.header', handleHeaderOutsideClick, event)`: a document
    click whose target is not the header element itself (a click on one of the
    header's descendants counts as outside).
   */
  function DocumentClick(s: HeaderState, targetIsHeader: bool): (r: HeaderState)
    ensures targetIsHeader || !s.headerMode ==> r == s
    ensures !targetIsHeader && s.headerMode ==> r == Click(s)
  {
    if !targetIsHeader then OutsideClick(s) else s
  }

  /** The body of the `setTimeout` callback in `handleDelayedHeaderClick`. */
  function DelayedClick(s: HeaderState): (r: HeaderState)
    ensures r.dropdownMode == !s.dropdownMode
    ensures r.megaMenuOpen == s.megaMenuOpen && r.languageDropdownOpen == s.languageDropdownOpen
    ensures !s.dropdownMode ==> r.headerMode == OverlayOpen(s) && (OpenClass in r.classes <==> OverlayOpen(s))
    ensures s.dropdownMode ==> !r.headerMode && OpenClass !in r.classes && HoveringClass !in r.classes
    ensures !s.dropdownMode ==> r == Click(s.(dropdownMode := true))
    ensures s.dropdownMode ==> r == Reset(s.(dropdownMode := false))
    ensures Consistent(r)
  {
    if !s.dropdownMode then Click(s.(dropdownMode := true))
    else Reset(s.(dropdownMode := false))
  }

  /** One record as `handleMegaMenuMutation` treats it. */
  function MegaMenuRecord(s: HeaderState, rec: MutationRecord, displays: seq<string>): HeaderState
  {
    if rec.attributeName == Some(StyleAttribute) then Click(s.(megaMenuOpen := AnyVisible(displays)))
    else s
  }

  /**
    `handleMegaMenuMutation`: the records in order; `displays` are the computed
    `display` values of the `.hs-mega-menu` elements while the callback runs.
   */
  function MegaMenuBatch(s: HeaderState, batch: seq<MutationRecord>, displays: seq<string>): (r: HeaderState)
    ensures r.dropdownMode == s.dropdownMode
    ensures r.languageDropdownOpen == s.languageDropdownOpen
  {
    if batch == [] then s
    else MegaMenuRecord(MegaMenuBatch(s, batch[..|batch| - 1], displays), batch[|batch| - 1], displays)
  }

  /** One record as `handleLanguageDropdownMutation` treats it. */
  function LanguageRecord(s: HeaderState, rec: MutationRecord): HeaderState
  {
    if rec.attributeName == Some(ClassAttribute) then
      Click(s.(languageDropdownOpen := UnfoldHiddenClass !in rec.targetClasses))
    else s
  }

  /** `handleLanguageDropdownMutation`: the records in order. */
  function LanguageBatch(s: HeaderState, batch: seq<MutationRecord>): (r: HeaderState)
    ensures r.dropdownMode == s.dropdownMode
    ensures r.megaMenuOpen == s.megaMenuOpen
  {
    if batch == [] then s
    else LanguageRecord(LanguageBatch(s, batch[..|batch| - 1]), batch[|batch| - 1])
  }

  predicate HasAttributeRecord(batch: seq<MutationRecord>, attribute: string)
  {
    exists i :: 0 <= i < |batch| && batch[i].attributeName == Some(attribute)
  }

  /** The last record of the batch whose attribute is `attribute`, if any. */
  function LastAttributeRecord(batch: seq<MutationRecord>, attribute: string): (r: Option<MutationRecord>)
    ensures r.None? <==> !HasAttributeRecord(batch, attribute)
    ensures r.Some? ==> r.value.attributeName == Some(attribute)
    ensures r.Some? ==> exists i :: 0 <= i < |batch| && batch[i] == r.value &&
                                    forall j :: i < j < |batch| ==> batch[j].attributeName != Some(attribute)
  {
    if batch == [] then None
    else if batch[|batch| - 1].attributeName == Some(attribute) then Some(batch[|batch| - 1])
    else
      var init := batch[..|batch| - 1];
      var r := LastAttributeRecord(init, attribute);
      assert forall i :: 0 <= i < |init| ==> init[i] == batch[i];
      if r.Some? then
        ghost var i :| 0 <= i < |init| && init[i] == r.value &&
                       forall j :: i < j < |init| ==> init[j].attributeName != Some(attribute);
        assert batch[i] == r.value;
        r
      else r
  }

  /** Re-evaluating the open state twice in a row changes nothing the second time. */
  lemma ClickTwice(s: HeaderState)
    ensures Click(Click(s)) == Click(s)
  {
  }

  /** `resetHeaderState` is idempotent. */
  lemma ResetTwice(s: HeaderState)
    ensures Reset(Reset(s)) == Reset(s)
  {
  }

  /** The language-dropdown flag plays no part in hover handling. */
  lemma HoverIgnoresLanguageDropdown(s: HeaderState, eventType: string, b: bool)
    ensures Hover(s.(languageDropdownOpen := b), eventType).classes == Hover(s, eventType).classes
  {
  }

  /**
    A mega-menu batch acts only through its `style` records, and all of them
    compute the same flag: the batch has the effect of one re-evaluation with
    the flag recomputed over every mega-menu element, or none at all.
   */
  lemma {:induction false} MegaMenuBatchEffect(s: HeaderState, batch: seq<MutationRecord>, displays: seq<string>)
    ensures MegaMenuBatch(s, batch, displays) ==
            if HasAttributeRecord(batch, StyleAttribute) then Click(s.(megaMenuOpen := AnyVisible(displays)))
            else s
  {
    if batch != [] {
      var init := batch[..|batch| - 1];
      MegaMenuBatchEffect(s, init, displays);
      assert forall i :: 0 <= i < |init| ==> init[i] == batch[i];
      if !HasAttributeRecord(init, StyleAttribute) && batch[|batch| - 1].attributeName != Some(StyleAttribute) {
        assert !HasAttributeRecord(batch, StyleAttribute);
      } else if HasAttributeRecord(init, StyleAttribute) {
        assert batch[|batch| - 1].attributeName == Some(StyleAttribute) ==>
               Click(s.(megaMenuOpen := AnyVisible(displays))).(megaMenuOpen := AnyVisible(displays)) ==
               Click(s.(megaMenuOpen := AnyVisible(displays)));
      }
    }
  }

  /**
    After a language-dropdown batch the dropdown flag says whether the target of
    the last `class` record lacks the closed-state class, and the open state of
    the header has been re-evaluated from the overlay flags; a batch without such
    a record leaves the whole state as it was. The other flags never change.
    `is-hovering` survives only if no `class` record found both overlays closed,
    even when a later record opens the dropdown again; no other class changes.
   */
  lemma {:induction false} LanguageBatchEffect(s: HeaderState, batch: seq<MutationRecord>)
    ensures LanguageBatch(s, batch).languageDropdownOpen ==
            match LastAttributeRecord(batch, ClassAttribute)
            case None => s.languageDropdownOpen
            case Some(rec) => UnfoldHiddenClass !in rec.targetClasses
    ensures !HasAttributeRecord(batch, ClassAttribute) ==> LanguageBatch(s, batch) == s
    ensures LanguageBatch(s, batch).megaMenuOpen == s.megaMenuOpen
    ensures LanguageBatch(s, batch).dropdownMode == s.dropdownMode
    ensures var r := LanguageBatch(s, batch);
            HasAttributeRecord(batch, ClassAttribute) ==>
              r.headerMode == OverlayOpen(r) && (OpenClass in r.classes <==> OverlayOpen(r)) &&
              (!OverlayOpen(r) ==> HoveringClass !in r.classes)
    ensures HoveringClass in LanguageBatch(s, batch).classes <==>
              HoveringClass in s.classes &&
              forall i :: 0 <= i < |batch| && batch[i].attributeName == Some(ClassAttribute) ==>
                s.megaMenuOpen || UnfoldHiddenClass !in batch[i].targetClasses
    ensures forall c :: c != OpenClass && c != HoveringClass ==>
              (c in LanguageBatch(s, batch).classes <==> c in s.classes)
  {
    if batch != [] {
      var init := batch[..|batch| - 1];
      LanguageBatchEffect(s, init);
      assert forall i :: 0 <= i < |init| ==> init[i] == batch[i];
      assert !HasAttributeRecord(batch, ClassAttribute) ==> !HasAttributeRecord(init, ClassAttribute);
    }
  }

  /** Every handler the header listens with, as one event type. */
  datatype HeaderEvent =
    | HoverEvent(eventType: string)
    | DocumentClickEvent(targetIsHeader: bool)
    | MegaMenuMutation(batch: seq<MutationRecord>, displays: seq<string>)
    | LanguageDropdownMutation(batch: seq<MutationRecord>)
    | DelayedClickFired

  function Step(s: HeaderState, e: HeaderEvent): HeaderState
  {
    match e
    case HoverEvent(t) => Hover(s, t)
    case DocumentClickEvent(onHeader) => DocumentClick(s, onHeader)
    case MegaMenuMutation(batch, displays) => MegaMenuBatch(s, batch, displays)
    case LanguageDropdownMutation(batch) => LanguageBatch(s, batch)
    case DelayedClickFired => DelayedClick(s)
  }

  function Run(s: HeaderState, events: seq<HeaderEvent>): HeaderState
    decreases events
  {
    if events == [] then s else Run(Step(s, events[0]), events[1..])
  }

  lemma {:induction false} MegaMenuBatchConsistent(s: HeaderState, batch: seq<MutationRecord>, displays: seq<string>)
    requires Consistent(s)
    ensures Consistent(MegaMenuBatch(s, batch, displays))
  {
    if batch != [] {
      MegaMenuBatchConsistent(s, batch[..|batch| - 1], displays);
    }
  }

  lemma {:induction false} LanguageBatchConsistent(s: HeaderState, batch: seq<MutationRecord>)
    requires Consistent(s)
    ensures Consistent(LanguageBatch(s, batch))
  {
    if batch != [] {
      LanguageBatchConsistent(s, batch[..|batch| - 1]);
    }
  }

  /** Every handler keeps the invariant. */
  lemma StepConsistent(s: HeaderState, e: HeaderEvent)
    requires Consistent(s)
    ensures Consistent(Step(s, e))
  {
    match e
    case MegaMenuMutation(batch, displays) => MegaMenuBatchConsistent(s, batch, displays);
    case LanguageDropdownMutation(batch) => LanguageBatchConsistent(s, batch);
    case _ =>
  }

  /**
    From page load, whatever events arrive, `headerMode` matches `is-open` on the
    header and `is-open` is only present while an overlay is open.
   */
  lemma {:induction false} RunConsistent(classes: set<string>, events: seq<HeaderEvent>)
    requires OpenClass !in classes
    ensures Consistent(Run(Initial(classes), events))
  {
    RunKeepsConsistent(Initial(classes), events);
  }

  lemma {:induction false} RunKeepsConsistent(s: HeaderState, events: seq<HeaderEvent>)
    requires Consistent(s)
    ensures Consistent(Run(s, events))
    decreases events
  {
    if events != [] {
      StepConsistent(s, events[0]);
      RunKeepsConsistent(Step(s, events[0]), events[1..]);
    }
  }

  /** The page-wide header state, held in fields as the script holds it in module variables. */
  class HeaderSynchronizer {
    var headerMode: bool
    var dropdownMode: bool
    var isMegaMenuOpen: bool
    var isLanguageDropdownOpen: bool
    /** The class list of the `.header` element. */
    var headerClasses: set<string>

    function State(): HeaderState
      reads this
    {
      HeaderState(headerMode, dropdownMode, isMegaMenuOpen, isLanguageDropdownOpen, headerClasses)
    }

    ghost predicate Valid()
      reads this
    {
      Consistent(State())
    }

    constructor (classes: set<string>)
      ensures State() == Initial(classes)
      ensures OpenClass !in classes ==> Valid()
    {
      headerMode, dropdownMode := false, false;
      isMegaMenuOpen, isLanguageDropdownOpen := false, false;
      headerClasses := classes;
    }

    method ResetHeaderState()
      modifies this
      ensures State() == Reset(old(State()))
      ensures Valid()
    {
      headerMode := false;
      headerClasses := headerClasses - {OpenClass};
      headerClasses := headerClasses - {HoveringClass};
    }

    method HandleHeaderClick()
      modifies this
      ensures State() == Click(old(State()))
      ensures Valid()
    {
      if isMegaMenuOpen || isLanguageDropdownOpen {
        headerClasses := headerClasses + {OpenClass};
        headerMode := true;
      } else {
        ResetHeaderState();
      }
    }

    method HandleHeaderHover(eventType: string)
      modifies this
      ensures State() == Hover(old(State()), eventType)
      ensures old(Valid()) ==> Valid()
    {
      if eventType == MouseOver {
        headerClasses := headerClasses + {HoveringClass};
      } else if !isMegaMenuOpen {
        headerClasses := headerClasses - {HoveringClass};
      }
    }

    method HandleHeaderOutsideClick()
      modifies this
      ensures State() == OutsideClick(old(State()))
      ensures old(Valid()) ==> Valid()
    {
      if headerMode {
        HandleHeaderClick();
      }
    }

    /** The document click listener; `targetIsHeader` says whether the target is the `.header` element. */
    method HandleClickOutside(targetIsHeader: bool)
      modifies this
      ensures State() == DocumentClick(old(State()), targetIsHeader)
      ensures old(Valid()) ==> Valid()
    {
      if !targetIsHeader {
        HandleHeaderOutsideClick();
      }
    }

    /** The callback `handleDelayedHeaderClick` schedules, run once its delay has passed. */
    method DelayedHeaderClickFired()
      modifies this
      ensures State() == DelayedClick(old(State()))
      ensures Valid()
    {
      if !dropdownMode {
        dropdownMode := true;
        HandleHeaderClick();
      } else {
        dropdownMode := false;
        ResetHeaderState();
      }
    }

    method HandleMegaMenuMutation(batch: seq<MutationRecord>, displays: seq<string>)
      modifies this
      ensures State() == MegaMenuBatch(old(State()), batch, displays)
      ensures old(Valid()) ==> Valid()
    {
      for i := 0 to |batch|
        invariant State() == MegaMenuBatch(old(State()), batch[..i], displays)
        invariant old(Valid()) ==> Valid()
      {
        assert batch[..i + 1][..i] == batch[..i];
        if batch[i].attributeName == Some(StyleAttribute) {
          isMegaMenuOpen := IsOpen(displays);
          HandleHeaderClick();
        }
      }
      assert batch[..|batch|] == batch;
    }

    method HandleLanguageDropdownMutation(batch: seq<MutationRecord>)
      modifies this
      ensures State() == LanguageBatch(old(State()), batch)
      ensures old(Valid()) ==> Valid()
    {
      for i := 0 to |batch|
        invariant State() == LanguageBatch(old(State()), batch[..i])
        invariant old(Valid()) ==> Valid()
      {
        assert batch[..i + 1][..i] == batch[..i];
        if batch[i].attributeName == Some(ClassAttribute) {
          isLanguageDropdownOpen := UnfoldHiddenClass !in batch[i].targetClasses;
          HandleHeaderClick();
        }
      }
      assert batch[..|batch|] == batch;
    }
  }
}
