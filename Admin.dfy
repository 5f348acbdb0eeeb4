/**
 * The notification feed (`app_notifications`) and its administration page.
 *
 * The feed is a list of notifications keyed by integer id. The page toggles an
 * item's visibility, deletes after a confirmation step, edits or creates through a
 * form, and can fill the form from a generated health tip: the generated text is
 * stripped of Markdown code fences before it is read as JSON, and the web sources
 * the generator cites are appended to the detail text, one line per distinct URI.
 *
 * `localStorage` is the field `stored`; `None` is a missing or empty entry. The
 * JSON reader of the generated text is the parameter `parseJson`.
 */
module Admin {
  import opened Wrappers
  import opened JsMath
  import opened JsString
  import opened Sequences

  datatype NotificationItem = NotificationItem(
    id: int,
    title: string,
    subtitle: string,
    icon: string,
    style: string,
    content: string,
    detail: string,
    isVisible: bool)

  /** The form: a notification without its id. */
  datatype Draft = Draft(
    title: string,
    subtitle: string,
    icon: string,
    style: string,
    content: string,
    detail: string,
    isVisible: bool)

  const DefaultNotifications: seq<NotificationItem> := [
    NotificationItem(1, "{goal_status_title}", "{goal_status_subtitle}", "directions_walk", "blue",
      "You have completed {weeklyMinutes} minutes so far, which is {percentage}% of your weekly goal. Keep pushing\U{2014}consistent activity is key to post-transplant health!",
      "The World Health Organization and transplant specialists recommend at least 150 minutes of moderate-intensity aerobic activity per week. This level of activity helps control blood pressure, improves cardiovascular health, and can even help reduce the side effects of immunosuppressant medications like weight gain and bone density loss.",
      true),
    NotificationItem(2, "Start your journey today", "Log your first activity to see progress.", "rocket_launch", "slate",
      "Tracking your activity is the first step to understanding your health patterns. Try logging a simple 10-minute walk to get the ball rolling.",
      "Logging activity consistently allows you to visualize trends over time. Early post-transplant patients who track their activity are 40% more likely to reach their rehabilitation goals within the first 6 months. Tap 'Learn More' to visit the activity logger.",
      true),
    NotificationItem(3, "Quick Tip: Hydration", "Water supports your new kidney.", "water_drop", "slate",
      "Proper hydration helps your kidneys filter waste from your blood. Aim to drink water consistently throughout the day.",
      "Dehydration can concentrate nephrotoxic drugs in your system, potentially harming your graft. Carry a water bottle and aim for clear or light yellow urine as a simple indicator of good hydration status.",
      true),
    NotificationItem(4, "Medication Review", "Check your adherence stats.", "medication", "slate",
      "Reviewing your medication history helps identify patterns. You can view your detailed adherence report in the Analytics tab.",
      "Missing even a single dose of immunosuppressants can increase the risk of rejection. If you are struggling with your schedule, consider using our built-in reminders or speaking with your transplant coordinator about simplified dosing options.",
      true)
  ]

  /** The four defaults carry the ids 1 to 4, in order, and are all visible. */
  lemma DefaultsNumbered()
    ensures |DefaultNotifications| == 4
    ensures forall i :: 0 <= i < 4 ==> DefaultNotifications[i].id == i + 1 && DefaultNotifications[i].isVisible
    ensures forall i, j :: 0 <= i < j < 4 ==> DefaultNotifications[i].id != DefaultNotifications[j].id
  {
  }

  /** The feed shown after loading, and what storage holds afterwards. */
  datatype Loaded = Loaded(shown: seq<NotificationItem>, stored: seq<NotificationItem>)

  /** The mount effect: the stored feed if there is one, else the defaults, which are then stored. */
  function LoadNotifications(saved: Option<seq<NotificationItem>>): (r: Loaded)
    ensures r.shown == r.stored
    ensures saved.Some? ==> r.shown == saved.value
    ensures saved.None? ==> r.shown == DefaultNotifications
  {
    match saved
    case Some(items) => Loaded(items, items)
    case None => Loaded(DefaultNotifications, DefaultNotifications)
  }

  // ---------------------------------------------------------------- list updates

  /** `toggleVisibility`: flip `isVisible` of the items with that id. */
  function ToggleVisibility(ns: seq<NotificationItem>, id: int): (r: seq<NotificationItem>)
    ensures |r| == |ns|
    ensures forall i :: 0 <= i < |ns| ==> r[i].id == ns[i].id
  {
    seq(|ns|, i requires 0 <= i < |ns| => if ns[i].id == id then ns[i].(isVisible := !ns[i].isVisible) else ns[i])
  }

  /** Only the matching items change, and only in `isVisible`; toggling twice restores the list. */
  lemma ToggleVisibilityFlips(ns: seq<NotificationItem>, id: int)
    ensures forall i :: 0 <= i < |ns| && ns[i].id == id ==>
              ToggleVisibility(ns, id)[i] == ns[i].(isVisible := !ns[i].isVisible)
    ensures forall i :: 0 <= i < |ns| && ns[i].id != id ==> ToggleVisibility(ns, id)[i] == ns[i]
    ensures ToggleVisibility(ToggleVisibility(ns, id), id) == ns
  {
  }

  function HasOtherId(id: int): NotificationItem -> bool
  {
    (n: NotificationItem) => n.id != id
  }

  /** `notifications.filter(n => n.id !== deleteId)`. */
  function DeleteById(ns: seq<NotificationItem>, id: int): seq<NotificationItem>
  {
    Filter(ns, HasOtherId(id))
  }

  /** Exactly the items with another id remain, in their order. */
  lemma DeleteByIdRemoves(ns: seq<NotificationItem>, id: int, n: NotificationItem)
    ensures (n in DeleteById(ns, id)) <==> (n in ns && n.id != id)
    ensures forall xs, ys :: ns == xs + ys ==> DeleteById(ns, id) == DeleteById(xs, id) + DeleteById(ys, id)
  {
    FilterMembers(ns, HasOtherId(id), n);
    forall xs, ys | ns == xs + ys
      ensures DeleteById(ns, id) == DeleteById(xs, id) + DeleteById(ys, id)
    {
      FilterAppend(xs, ys, HasOtherId(id));
    }
  }

  /** `confirmDelete`: with a pending id its items go and the pending id is cleared; else nothing. */
  function ConfirmDelete(ns: seq<NotificationItem>, deleteId: Option<int>): (r: (seq<NotificationItem>, Option<int>))
    ensures r.1 == None
    ensures deleteId.None? ==> r.0 == ns
    ensures deleteId.Some? ==> r.0 == DeleteById(ns, deleteId.value)
  {
    if deleteId.Some? then (DeleteById(ns, deleteId.value), None) else (ns, None)
  }

  /** `{ ...n, ...formData }`: every field but the id comes from the form. */
  function WithDraft(n: NotificationItem, d: Draft): NotificationItem
  {
    NotificationItem(n.id, d.title, d.subtitle, d.icon, d.style, d.content, d.detail, d.isVisible)
  }

  /** The form `handleEdit` fills from an item. */
  function DraftOf(n: NotificationItem): Draft
  {
    Draft(n.title, n.subtitle, n.icon, n.style, n.content, n.detail, n.isVisible)
  }

  /** The update branch of `handleSubmit`. */
  function Update(ns: seq<NotificationItem>, id: int, d: Draft): (r: seq<NotificationItem>)
    ensures |r| == |ns|
  {
    seq(|ns|, i requires 0 <= i < |ns| => if ns[i].id == id then WithDraft(ns[i], d) else ns[i])
  }

  /**
   * An update overwrites every non-id field of the matching items from the form and
   * leaves ids, positions and all other items as they were.
   */
  lemma UpdateOverwrites(ns: seq<NotificationItem>, id: int, d: Draft)
    ensures forall i :: 0 <= i < |ns| ==> Update(ns, id, d)[i].id == ns[i].id
    ensures forall i :: 0 <= i < |ns| && ns[i].id == id ==> DraftOf(Update(ns, id, d)[i]) == d
    ensures forall i :: 0 <= i < |ns| && ns[i].id != id ==> Update(ns, id, d)[i] == ns[i]
  {
  }

  /** Opening an item for editing and saving the untouched form changes nothing, when ids are unique. */
  lemma EditThenSaveUnchanged(ns: seq<NotificationItem>, k: int)
    requires 0 <= k < |ns|
    requires forall i, j :: 0 <= i < j < |ns| ==> ns[i].id != ns[j].id
    ensures Update(ns, ns[k].id, DraftOf(ns[k])) == ns
  {
    var r := Update(ns, ns[k].id, DraftOf(ns[k]));
    forall i | 0 <= i < |ns|
      ensures r[i] == ns[i]
    {
      if i != k {
        assert ns[i].id != ns[k].id;
      }
    }
  }

  /** `Math.max(0, ...notifications.map(n => n.id))`. */
  function MaxId(ns: seq<NotificationItem>): (m: int)
    ensures m >= 0
    ensures forall i :: 0 <= i < |ns| ==> ns[i].id <= m
    ensures m == 0 || exists i :: 0 <= i < |ns| && ns[i].id == m
  {
    if ns == [] then 0
    else
      var rest := MaxId(ns[1..]);
      assert forall i :: 1 <= i < |ns| ==> ns[i] == ns[1..][i - 1];
      Max(ns[0].id, rest)
  }

  /** The id a created notification gets: one more than the largest id (and at least 1). */
  function NextId(ns: seq<NotificationItem>): (id: int)
    ensures id >= 1
    ensures forall i :: 0 <= i < |ns| ==> ns[i].id < id
  {
    MaxId(ns) + 1
  }

  /** The create branch of `handleSubmit`: `[...notifications, { id: newId, ...formData }]`. */
  function Create(ns: seq<NotificationItem>, d: Draft): (r: seq<NotificationItem>)
    ensures |r| == |ns| + 1 && r[..|ns|] == ns
    ensures r[|ns|].id == NextId(ns) && DraftOf(r[|ns|]) == d
    ensures forall i :: 0 <= i < |ns| ==> r[i].id != r[|ns|].id
  {
    ns + [WithDraft(NotificationItem(NextId(ns), "", "", "", "", "", "", false), d)]
  }

  /** Ids stay unique under creation. */
  lemma CreateKeepsIdsUnique(ns: seq<NotificationItem>, d: Draft)
    requires forall i, j :: 0 <= i < j < |ns| ==> ns[i].id != ns[j].id
    ensures forall i, j :: 0 <= i < j < |ns| + 1 ==> Create(ns, d)[i].id != Create(ns, d)[j].id
  {
  }

  /** `handleSubmit`: `if (editingId)` is false for no id and for id 0, which then creates. */
  function Submit(ns: seq<NotificationItem>, editingId: Option<int>, d: Draft): (r: seq<NotificationItem>)
    ensures editingId.Some? && editingId.value != 0 ==> r == Update(ns, editingId.value, d)
    ensures editingId.None? || editingId.value == 0 ==> r == Create(ns, d)
  {
    if editingId.Some? && editingId.value != 0 then Update(ns, editingId.value, d) else Create(ns, d)
  }

  // ------------------------------------------------------------ generated tips

  /** The regular expression `/```json\n|\n```/g`, as its two alternatives. */
  const FenceMarkers: seq<string> := ["```json\n", "\n```"]

  /** `text.replace(/```json\n|\n```/g, '').replace(/```/g, '').trim()`. */
  function CleanResponse(text: string): string
  {
    Trim(DeleteAll(DeleteAll(text, FenceMarkers), [Fence]))
  }

  /** The cleaned text never contains a code fence. */
  lemma CleanResponseHasNoFence(text: string)
    ensures !Contains(CleanResponse(text), Fence)
  {
    var s := DeleteAll(DeleteAll(text, FenceMarkers), [Fence]);
    NoFenceAfterDelete(DeleteAll(text, FenceMarkers));
    TrimIsSlice(s);
    var i, j :| 0 <= i <= j <= |s| && Trim(s) == s[i..j];
    NoFenceInSlice(s, i, j);
  }

  /** A deletion whose every alternative holds a backquote leaves text without backquotes alone. */
  lemma {:induction false} DeleteAllWithoutBackquote(s: string, alts: seq<string>)
    requires forall k :: 0 <= k < |alts| ==> |alts[k]| > 0 && '`' in alts[k]
    requires '`' !in s
    ensures DeleteAll(s, alts) == s
  {
    if s != [] {
      forall k | 0 <= k < |alts|
        ensures !(alts[k] <= s)
      {
        var a := alts[k];
        var j :| 0 <= j < |a| && a[j] == '`';
        if j < |s| {
          assert s[j] != a[j];
        }
      }
      assert FirstAlternative(s, alts, 0).None?;
      DeleteAllWithoutBackquote(s[1..], alts);
    }
  }

  /** Text without backquotes is only trimmed. */
  lemma CleanResponseOfPlainText(text: string)
    requires '`' !in text
    ensures CleanResponse(text) == Trim(text)
  {
    assert FenceMarkers[0][0] == '`' && FenceMarkers[1][1] == '`' && Fence[0] == '`';
    DeleteAllWithoutBackquote(text, FenceMarkers);
    DeleteAllWithoutBackquote(text, [Fence]);
  }

  /** A grounding chunk's `web.uri` and `web.title`; an absent one is empty. */
  datatype Chunk = Chunk(uri: string, title: string)

  /** `chunk.web?.uri && chunk.web?.title`. */
  predicate ValidChunk(c: Chunk)
  {
    c.uri != "" && c.title != ""
  }

  /** The keys of `uniqueLinks` in insertion order: each URI where it is first seen. */
  function LinkOrder(chunks: seq<Chunk>): seq<string>
  {
    if chunks == [] then []
    else
      var prev := LinkOrder(chunks[..|chunks| - 1]);
      var c := chunks[|chunks| - 1];
      if ValidChunk(c) && c.uri !in prev then prev + [c.uri] else prev
  }

  /** The values of `uniqueLinks`: `set` overwrites, so the last title wins. */
  function LinkTitles(chunks: seq<Chunk>): map<string, string>
  {
    if chunks == [] then map[]
    else
      var prev := LinkTitles(chunks[..|chunks| - 1]);
      var c := chunks[|chunks| - 1];
      if ValidChunk(c) then prev[c.uri := c.title] else prev
  }

  /** A URI is listed, and has a title, exactly when some valid chunk carries it. */
  lemma {:induction false} LinkOrderMembers(chunks: seq<Chunk>, u: string)
    ensures (u in LinkOrder(chunks)) <==> (u in LinkTitles(chunks))
    ensures (u in LinkOrder(chunks)) <==> (exists i :: 0 <= i < |chunks| && ValidChunk(chunks[i]) && chunks[i].uri == u)
  {
    if chunks != [] {
      var init := chunks[..|chunks| - 1];
      LinkOrderMembers(init, u);
      forall i | 0 <= i < |init|
        ensures init[i] == chunks[i]
      {
      }
    }
  }

  /** No URI is listed twice. */
  lemma {:induction false} LinkOrderDistinct(chunks: seq<Chunk>)
    ensures forall i, j :: 0 <= i < j < |LinkOrder(chunks)| ==> LinkOrder(chunks)[i] != LinkOrder(chunks)[j]
  {
    if chunks != [] {
      LinkOrderDistinct(chunks[..|chunks| - 1]);
    }
  }

  /** Each URI's title is that of the last valid chunk carrying it. */
  lemma {:induction false} LinkTitlesLast(chunks: seq<Chunk>, u: string)
    requires u in LinkTitles(chunks)
    ensures exists i :: 0 <= i < |chunks| && ValidChunk(chunks[i]) && chunks[i].uri == u &&
              chunks[i].title == LinkTitles(chunks)[u] &&
              forall j :: i < j < |chunks| ==> !(ValidChunk(chunks[j]) && chunks[j].uri == u)
  {
    var init := chunks[..|chunks| - 1];
    var c := chunks[|chunks| - 1];
    if ValidChunk(c) && c.uri == u {
      assert chunks[|chunks| - 1] == c;
    } else {
      LinkTitlesLast(init, u);
      var i :| 0 <= i < |init| && ValidChunk(init[i]) && init[i].uri == u &&
               init[i].title == LinkTitles(init)[u] &&
               forall j :: i < j < |init| ==> !(ValidChunk(init[j]) && init[j].uri == u);
      assert chunks[i] == init[i];
      forall j | i < j < |chunks|
        ensures !(ValidChunk(chunks[j]) && chunks[j].uri == u)
      {
        if j < |init| {
          assert chunks[j] == init[j];
        }
      }
    }
  }

  /** One line `\n• <title>: <uri>` per listed URI. */
  function SourceLines(order: seq<string>, titles: map<string, string>): string
    requires forall k :: 0 <= k < |order| ==> order[k] in titles
  {
    if order == [] then ""
    else SourceLines(order[..|order| - 1], titles) + SourceLine(titles[order[|order| - 1]], order[|order| - 1])
  }

  function SourceLine(title: string, uri: string): string
  {
    "\n\U{2022} " + title + ": " + uri
  }

  /** `sourceText`: a "Sources:" heading and the lines, or nothing when no chunk is usable. */
  function SourcesText(chunks: seq<Chunk>): (r: string)
  {
    var order := LinkOrder(chunks);
    forall k | 0 <= k < |order|
      ensures order[k] in LinkTitles(chunks)
    {
      LinkOrderMembers(chunks, order[k]);
    }
    if order == [] then "" else "\n\nSources:" + SourceLines(order, LinkTitles(chunks))
  }

  /** The sources text is empty exactly when no chunk has both a URI and a title. */
  lemma SourcesTextEmpty(chunks: seq<Chunk>)
    ensures SourcesText(chunks) == "" <==> forall i :: 0 <= i < |chunks| ==> !ValidChunk(chunks[i])
  {
    var order := LinkOrder(chunks);
    if order != [] {
      LinkOrderMembers(chunks, order[0]);
      assert SourcesText(chunks)[0] == '\n';
    } else {
      forall i | 0 <= i < |chunks| && ValidChunk(chunks[i])
        ensures chunks[i].uri in order
      {
        LinkOrderMembers(chunks, chunks[i].uri);
      }
    }
  }

  /** The two `forEach` loops of `handleAiGenerate` that build `uniqueLinks` and `sourceText`. */
  method BuildSourceText(chunks: seq<Chunk>) returns (text: string)
    ensures text == SourcesText(chunks)
  {
    var order: seq<string> := [];
    var titles: map<string, string> := map[];
    for i := 0 to |chunks|
      invariant order == LinkOrder(chunks[..i])
      invariant titles == LinkTitles(chunks[..i])
    {
      var c := chunks[i];
      assert chunks[..i + 1][..i] == chunks[..i];
      if c.uri != "" && c.title != "" {
        LinkOrderMembers(chunks[..i], c.uri);
        if c.uri !in titles {
          order := order + [c.uri];
        }
        titles := titles[c.uri := c.title];
      }
    }
    assert chunks[..|chunks|] == chunks;
    forall k | 0 <= k < |order|
      ensures order[k] in titles
    {
      LinkOrderMembers(chunks, order[k]);
    }
    text := "";
    if |order| > 0 {
      text := "\n\nSources:";
      for j := 0 to |order|
        invariant text == "\n\nSources:" + SourceLines(order[..j], titles)
      {
        assert order[..j + 1][..j] == order[..j];
        text := text + SourceLine(titles[order[j]], order[j]);
      }
      assert order[..|order|] == order;
    }
  }

  /** The fields of the generated JSON object; an absent or empty one is the empty string. */
  datatype GeneratedTip = GeneratedTip(
    title: string,
    subtitle: string,
    content: string,
    detail: string,
    icon: string,
    style: string)

  /** `x || fallback` on a string. */
  function OrElse(s: string, fallback: string): string
  {
    if s == "" then fallback else s
  }

  /** The form `handleAiGenerate` fills from a parsed tip and the sources text. */
  function FillDraft(tip: GeneratedTip, sourceText: string): Draft
  {
    Draft(OrElse(tip.title, "Health Tip"), OrElse(tip.subtitle, "Daily health insight"),
          OrElse(tip.icon, "info"), OrElse(tip.style, "slate"), tip.content,
          tip.detail + sourceText, true)
  }

  /** Missing fields take their defaults, given ones are kept, and the sources follow the detail. */
  lemma FillDraftDefaults(tip: GeneratedTip, sourceText: string)
    ensures FillDraft(tip, sourceText).title == (if tip.title == "" then "Health Tip" else tip.title)
    ensures FillDraft(tip, sourceText).subtitle == (if tip.subtitle == "" then "Daily health insight" else tip.subtitle)
    ensures FillDraft(tip, sourceText).icon == (if tip.icon == "" then "info" else tip.icon)
    ensures FillDraft(tip, sourceText).style == (if tip.style == "" then "slate" else tip.style)
    ensures FillDraft(tip, sourceText).title != "" && FillDraft(tip, sourceText).subtitle != ""
    ensures FillDraft(tip, sourceText).icon != "" && FillDraft(tip, sourceText).style != ""
    ensures FillDraft(tip, sourceText).content == tip.content
    ensures tip.detail <= FillDraft(tip, sourceText).detail
    ensures FillDraft(tip, sourceText).detail[|tip.detail|..] == sourceText
    ensures FillDraft(tip, sourceText).isVisible
  {
    var d := FillDraft(tip, sourceText);
    assert d.detail == tip.detail + sourceText;
  }

  /**
   * The form after a generation: filled from the cleaned text when it parses; when
   * `JSON.parse` throws the error is reported and the form stays as it was.
   */
  function GeneratedDraft(form: Draft, responseText: string, chunks: seq<Chunk>,
                          parseJson: string -> Option<GeneratedTip>): (d: Draft)
  {
    match parseJson(CleanResponse(responseText))
    case None => form
    case Some(tip) => FillDraft(tip, SourcesText(chunks))
  }

  /** A generated form is always visible and never lacks a title, or is the old form. */
  lemma GeneratedDraftShape(form: Draft, responseText: string, chunks: seq<Chunk>,
                            parseJson: string -> Option<GeneratedTip>)
    ensures parseJson(CleanResponse(responseText)).None? ==> GeneratedDraft(form, responseText, chunks, parseJson) == form
    ensures parseJson(CleanResponse(responseText)).Some? ==>
              GeneratedDraft(form, responseText, chunks, parseJson).isVisible &&
              GeneratedDraft(form, responseText, chunks, parseJson).title != ""
  {
    var parsed := parseJson(CleanResponse(responseText));
    if parsed.Some? {
      FillDraftDefaults(parsed.value, SourcesText(chunks));
    }
  }

  /** The body of `handleAiGenerate` after the request: clean, parse, build the sources, fill. */
  method GenerateForm(form: Draft, responseText: string, chunks: seq<Chunk>,
                      parseJson: string -> Option<GeneratedTip>) returns (d: Draft)
    ensures d == GeneratedDraft(form, responseText, chunks, parseJson)
  {
    var parsed := parseJson(CleanResponse(responseText));
    d := form;
    if parsed.Some? {
      var sources := BuildSourceText(chunks);
      d := FillDraft(parsed.value, sources);
    }
  }

  // ---------------------------------------------------------------------- the page

  /** The empty form; `handleCreate` resets to it with icon 'info', the initial state has ''. */
  function BlankDraft(icon: string): Draft
  {
    Draft("", "", icon, "slate", "", "", true)
  }

  /** The state of the administration page. */
  class AdminPage {
    var notifications: seq<NotificationItem>
    var stored: Option<seq<NotificationItem>>
    var editingId: Option<int>
    var deleteId: Option<int>
    var form: Draft
    var formOpen: bool

    /** What is shown is what is stored (`saveToStorage` writes both). */
    predicate Synced()
      reads this
    {
      stored == Some(notifications)
    }

    constructor (saved: Option<seq<NotificationItem>>)
      ensures notifications == LoadNotifications(saved).shown
      ensures Synced()
      ensures editingId == None && deleteId == None
      ensures form == BlankDraft("") && !formOpen
    {
      var loaded := LoadNotifications(saved);
      notifications := loaded.shown;
      stored := Some(loaded.stored);
      editingId := None;
      deleteId := None;
      form := BlankDraft("");
      formOpen := false;
    }

    method Save(items: seq<NotificationItem>)
      modifies this
      ensures notifications == items && Synced()
      ensures editingId == old(editingId) && deleteId == old(deleteId)
      ensures form == old(form) && formOpen == old(formOpen)
    {
      notifications := items;
      stored := Some(items);
    }

    method ToggleVisibilityOf(id: int)
      modifies this
      ensures notifications == ToggleVisibility(old(notifications), id) && Synced()
      ensures editingId == old(editingId) && deleteId == old(deleteId)
      ensures form == old(form) && formOpen == old(formOpen)
    {
      Save(ToggleVisibility(notifications, id));
    }

    /** `handleDeleteClick`: ask for confirmation. */
    method DeleteClick(id: int)
      modifies this
      ensures deleteId == Some(id)
      ensures notifications == old(notifications) && stored == old(stored)
      ensures editingId == old(editingId) && form == old(form) && formOpen == old(formOpen)
    {
      deleteId := Some(id);
    }

    /** The dialog's Cancel button. */
    method CancelDelete()
      modifies this
      ensures deleteId == None
      ensures notifications == old(notifications) && stored == old(stored)
      ensures editingId == old(editingId) && form == old(form) && formOpen == old(formOpen)
    {
      deleteId := None;
    }

    method ConfirmDeletion()
      modifies this
      ensures deleteId == None
      ensures old(deleteId).None? ==> notifications == old(notifications) && stored == old(stored)
      ensures old(deleteId).Some? ==> notifications == DeleteById(old(notifications), old(deleteId).value) && Synced()
      ensures editingId == old(editingId) && form == old(form) && formOpen == old(formOpen)
    {
      if deleteId.Some? {
        Save(DeleteById(notifications, deleteId.value));
        deleteId := None;
      }
    }

    method Edit(item: NotificationItem)
      modifies this
      ensures editingId == Some(item.id) && form == DraftOf(item) && formOpen
      ensures notifications == old(notifications) && stored == old(stored) && deleteId == old(deleteId)
    {
      editingId := Some(item.id);
      form := DraftOf(item);
      formOpen := true;
    }

    method StartCreate()
      modifies this
      ensures editingId == None && form == BlankDraft("info") && formOpen
      ensures notifications == old(notifications) && stored == old(stored) && deleteId == old(deleteId)
    {
      editingId := None;
      form := BlankDraft("info");
      formOpen := true;
    }

    method Generate(responseText: string, chunks: seq<Chunk>, parseJson: string -> Option<GeneratedTip>)
      modifies this`form
      ensures form == GeneratedDraft(old(form), responseText, chunks, parseJson)
    {
      var d := GenerateForm(form, responseText, chunks, parseJson);
      assert d == GeneratedDraft(old(form), responseText, chunks, parseJson);
      form := d;
    }

    method SubmitForm()
      modifies this
      ensures notifications == Submit(old(notifications), old(editingId), old(form)) && Synced()
      ensures !formOpen
      ensures editingId == old(editingId) && deleteId == old(deleteId) && form == old(form)
    {
      Save(Submit(notifications, editingId, form));
      formOpen := false;
    }
  }
}
