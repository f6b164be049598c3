/**
 * The inline Leaflet page that the OpenStreetMap component hands to its WebView.
 *
 * The page is one string built from a template literal. Its fixed parts (the HTML
 * head, the tile layer, `updateMarker`, the `DOMContentLoaded` hook and every
 * Leaflet call) are constant text; what varies with the component's props is
 * the body of `initMap`, which is modelled here as a sequence of sections in the
 * order they are written into the page. Coordinates are kept as numbers and are
 * never formatted. The text that matters for the page's integrity, the popup
 * template-literal body and the marker-id string literal of each read-only
 * marker, is modelled character by character together with its escaping.
 */
module MapPage {
  import opened Wrappers
  import opened Text

  datatype LatLng = LatLng(latitude: real, longitude: real)

  datatype Region = Region(latitude: real, longitude: real, latitudeDelta: real, longitudeDelta: real)

  /** A read-only marker; `title` and `description` are optional properties. */
  datatype Marker = Marker(id: string, latitude: real, longitude: real,
                           title: Option<string>, description: Option<string>)

  /**
   * The props that shape the page. An absent `markers` is the empty list, an absent
   * `disableMapClick` is false, and an absent or null `currentLocation` is None.
   */
  datatype MapProps = MapProps(markerCoords: Option<LatLng>, initialRegion: Region,
                               markers: seq<Marker>, disableMapClick: bool,
                               currentLocation: Option<LatLng>)

  /** JavaScript truthiness of an optional string: present and non-empty. */
  predicate Truthy(o: Option<string>) {
    o.Some? && o.value != ""
  }

  // ---------------------------------------------------------------------------
  // Escaping
  // ---------------------------------------------------------------------------

  /** Characters that the popup escaping puts a backslash before. */
  const TemplateSpecials: set<char> := {'`', '$'}

  /** Characters that the marker-id escaping puts a backslash before. */
  const QuoteSpecials: set<char> := {'\''}

  /** Popup text escaping as written: `.replace(/`/g, "\\`").replace(/\$/g, "\\$")`. */
  function EscapeTemplate(s: string): string {
    ReplaceAll(ReplaceAll(s, '`', "\\`"), '$', "\\$")
  }

  /** Marker-id escaping as written: `.replace(/'/g, "\\'")`. */
  function EscapeQuote(s: string): string {
    ReplaceAll(s, '\'', "\\'")
  }

  /** The two passes of the popup escaping amount to one backslash before each backtick and `$`. */
  lemma {:induction false} EscapeTemplateIsBackslashBefore(s: string)
    ensures EscapeTemplate(s) == BackslashBefore(s, TemplateSpecials)
  {
    if s != [] {
      var first := if s[0] == '`' then "\\`" else [s[0]];
      assert ReplaceAll(s, '`', "\\`") == first + ReplaceAll(s[1..], '`', "\\`");
      ReplaceAllAppend(first, ReplaceAll(s[1..], '`', "\\`"), '$', "\\$");
      var second := if s[0] in TemplateSpecials then ['\\', s[0]] else [s[0]];
      assert ReplaceAll(first, '$', "\\$") == second by {
        if s[0] == '`' {
          assert first == ['\\'] + ['`'];
          ReplaceAllAppend(['\\'], ['`'], '$', "\\$");
        }
      }
      EscapeTemplateIsBackslashBefore(s[1..]);
    }
  }

  lemma {:induction false} EscapeQuoteIsBackslashBefore(s: string)
    ensures EscapeQuote(s) == BackslashBefore(s, QuoteSpecials)
  {
    if s != [] {
      EscapeQuoteIsBackslashBefore(s[1..]);
    }
  }

  /**
   * Popup escaping adds exactly one backslash per backtick and per `$`, and leaves
   * every other character unchanged and in order.
   */
  lemma EscapeTemplateSpec(s: string)
    ensures |EscapeTemplate(s)| == |s| + CountIn(s, TemplateSpecials)
    ensures WithoutBackslashes(EscapeTemplate(s)) == WithoutBackslashes(s)
    ensures CountIn(EscapeTemplate(s), {'\\'}) == CountIn(s, {'\\'}) + CountIn(s, TemplateSpecials)
  {
    EscapeTemplateIsBackslashBefore(s);
    BackslashBeforeLength(s, TemplateSpecials);
    BackslashBeforeKeepsText(s, TemplateSpecials);
  }

  /** Marker-id escaping adds exactly one backslash per `'` and changes nothing else. */
  lemma EscapeQuoteSpec(s: string)
    ensures |EscapeQuote(s)| == |s| + CountIn(s, QuoteSpecials)
    ensures WithoutBackslashes(EscapeQuote(s)) == WithoutBackslashes(s)
    ensures CountIn(EscapeQuote(s), {'\\'}) == CountIn(s, {'\\'}) + CountIn(s, QuoteSpecials)
  {
    EscapeQuoteIsBackslashBefore(s);
    BackslashBeforeLength(s, QuoteSpecials);
    BackslashBeforeKeepsText(s, QuoteSpecials);
  }

  // ---------------------------------------------------------------------------
  // Reading an escaped body back, as the page's JavaScript parser would
  // ---------------------------------------------------------------------------

  function Prepend(c: char, o: Option<string>): Option<string> {
    if o.Some? then Some([c] + o.value) else None
  }

  function PrependAll(s: string, o: Option<string>): Option<string> {
    if o.Some? then Some(s + o.value) else None
  }

  /**
   * The value of the text between the two backticks of a template literal, read up
   * to the closing backtick. `\``, `\$` and `\\` stand for the character after the
   * backslash. None when the text would end the literal early (an unescaped
   * backtick), would open a substitution (`${`), or uses an escape outside those
   * three, which this reader does not interpret.
   */
  function ReadTemplateBody(b: string): Option<string> {
    if b == [] then Some([])
    else if b[0] == '`' then None
    else if b[0] == '$' && |b| > 1 && b[1] == '{' then None
    else if b[0] == '\\' then
      if |b| > 1 && (b[1] == '`' || b[1] == '$' || b[1] == '\\') then Prepend(b[1], ReadTemplateBody(b[2..]))
      else None
    else Prepend(b[0], ReadTemplateBody(b[1..]))
  }

  /**
   * The characters a single-quoted string literal cannot hold unescaped: line feed
   * and carriage return. U+2028 and U+2029 are allowed in string literals since
   * ECMAScript 2019.
   */
  predicate BreaksQuotedLiteral(c: char) {
    c == '\n' || c == '\r'
  }

  /**
   * The value of the text between the quotes of a single-quoted string literal.
   * `\'` and `\\` stand for the character after the backslash. None when the text
   * would end the literal early (an unescaped `'`), holds a line feed or carriage
   * return, or uses another escape.
   */
  function ReadQuotedBody(b: string): Option<string> {
    if b == [] then Some([])
    else if b[0] == '\'' || BreaksQuotedLiteral(b[0]) then None
    else if b[0] == '\\' then
      if |b| > 1 && (b[1] == '\'' || b[1] == '\\') then Prepend(b[1], ReadQuotedBody(b[2..]))
      else None
    else Prepend(b[0], ReadQuotedBody(b[1..]))
  }

  lemma {:induction false} ReadEscapedTemplate(s: string, rest: string)
    requires '\\' !in s
    ensures ReadTemplateBody(BackslashBefore(s, TemplateSpecials) + rest) == PrependAll(s, ReadTemplateBody(rest))
  {
    if s == [] {
      assert BackslashBefore(s, TemplateSpecials) + rest == rest;
      var o := ReadTemplateBody(rest);
      if o.Some? {
        assert s + o.value == o.value;
      }
    } else {
      var head := if s[0] in TemplateSpecials then ['\\', s[0]] else [s[0]];
      var tail := BackslashBefore(s[1..], TemplateSpecials) + rest;
      assert BackslashBefore(s, TemplateSpecials) + rest == head + tail;
      assert s[0] != '\\' by { assert s[0] in s; }
      assert ReadTemplateBody(head + tail) == Prepend(s[0], ReadTemplateBody(tail)) by {
        if s[0] in TemplateSpecials {
          assert (head + tail)[2..] == tail;
        } else {
          assert (head + tail)[1..] == tail;
        }
      }
      ReadEscapedTemplate(s[1..], rest);
      var o := ReadTemplateBody(rest);
      if o.Some? {
        assert [s[0]] + (s[1..] + o.value) == s + o.value;
      }
    }
  }

  lemma {:induction false} ReadEscapedQuoted(s: string)
    requires '\\' !in s
    requires forall i :: 0 <= i < |s| ==> !BreaksQuotedLiteral(s[i])
    ensures ReadQuotedBody(BackslashBefore(s, QuoteSpecials)) == Some(s)
  {
    if s != [] {
      var head := if s[0] in QuoteSpecials then ['\\', s[0]] else [s[0]];
      var tail := BackslashBefore(s[1..], QuoteSpecials);
      assert BackslashBefore(s, QuoteSpecials) == head + tail;
      assert s[0] != '\\' by { assert s[0] in s; }
      assert ReadQuotedBody(head + tail) == Prepend(s[0], ReadQuotedBody(tail)) by {
        if s[0] in QuoteSpecials {
          assert (head + tail)[2..] == tail;
        } else {
          assert (head + tail)[1..] == tail;
        }
      }
      ReadEscapedQuoted(s[1..]);
      assert [s[0]] + s[1..] == s;
    }
  }

  /**
   * For text without backslashes, reading the escaped popup text back as a
   * template-literal body gives the original text: no backtick or `$` in a
   * title or description can end the literal or open a substitution.
   */
  lemma EscapeTemplateRoundTrip(s: string)
    requires '\\' !in s
    ensures ReadTemplateBody(EscapeTemplate(s)) == Some(s)
  {
    EscapeTemplateIsBackslashBefore(s);
    ReadEscapedTemplate(s, []);
    assert EscapeTemplate(s) + [] == EscapeTemplate(s);
    assert s + [] == s;
  }

  /**
   * For an id without backslashes, line feeds or carriage returns, reading the escaped id back
   * as a single-quoted string body gives the id.
   */
  lemma EscapeQuoteRoundTrip(s: string)
    requires '\\' !in s
    requires forall i :: 0 <= i < |s| ==> !BreaksQuotedLiteral(s[i])
    ensures ReadQuotedBody(EscapeQuote(s)) == Some(s)
  {
    EscapeQuoteIsBackslashBefore(s);
    ReadEscapedQuoted(s);
  }

  /**
   * Neither escaper escapes the backslash itself. The title `\`` (a backslash, then
   * a backtick) and the id `\'` (a backslash, then a quote) yield text that closes
   * its literal early. These are two witnesses, not every input: with two
   * backslashes the literal stays open (see `EvenBackslashesLoseOne`).
   */
  lemma BackslashDefeatsEscaping()
    ensures ReadTemplateBody(EscapeTemplate("\\`")) == None
    ensures ReadQuotedBody(EscapeQuote("\\'")) == None
  {
    EscapeTemplateIsBackslashBefore("\\`");
    assert BackslashBefore("\\`", TemplateSpecials) == "\\\\`" by {
      assert "\\`"[1..] == "`";
    }
    assert "\\\\`"[2..] == "`";
    EscapeQuoteIsBackslashBefore("\\'");
    assert BackslashBefore("\\'", QuoteSpecials) == "\\\\'" by {
      assert "\\'"[1..] == "'";
    }
    assert "\\\\'"[2..] == "'";
  }

  /**
   * The title `\\`` and the id `\\'` (two backslashes, then a backtick or a quote)
   * leave their literals open, but each reads back with one backslash fewer.
   */
  lemma EvenBackslashesLoseOne()
    ensures ReadTemplateBody(EscapeTemplate("\\\\`")) == Some("\\`")
    ensures ReadQuotedBody(EscapeQuote("\\\\'")) == Some("\\'")
  {
    var t := "\\\\`";
    EscapeTemplateIsBackslashBefore(t);
    assert t[1..] == "\\`" && t[2..] == "`";
    assert BackslashBefore(t, TemplateSpecials) == "\\\\\\`";
    assert "\\\\\\`"[2..] == "\\`" && "\\`"[2..] == [];
    var q := "\\\\'";
    EscapeQuoteIsBackslashBefore(q);
    assert q[1..] == "\\'" && q[2..] == "'";
    assert BackslashBefore(q, QuoteSpecials) == "\\\\\\'";
    assert "\\\\\\'"[2..] == "\\'" && "\\'"[2..] == [];
    var b := "\\'";
    assert |b| == 2 && b[0] == '\\' && b[1] == '\'' && ReadQuotedBody(b[2..]) == Some([]);
    assert ['\''] + [] == "'";
    assert ReadQuotedBody(b) == Some("'");
    assert ['\\'] + "'" == "\\'";
  }

  // ---------------------------------------------------------------------------
  // The page
  // ---------------------------------------------------------------------------

  /** The dynamic sections of `initMap`, in the order they are written into the page. */
  datatype Section =
    | MapSetup(center: LatLng)                  // `L.map('map').setView(...)` and the tile layer
    | ClickToPlace                              // `map.on('click', ...)` that places a draggable marker
    | DraggableMarker(at: LatLng)               // the initial draggable marker
    | ExistingMarker(name: string, at: LatLng,  // one read-only marker: its `const` name,
                     popup: Option<string>,     // the body of its `bindPopup` template literal,
                     markerId: string)          // the body of the `markerId` string literal
    | CurrentLocationMarker(at: LatLng)         // the red current-location marker
    | MapReadyPost                              // `postMessage({type: 'mapReady'})`

  /** The `const` name of the read-only marker at `index`. */
  function MarkerName(index: nat): string {
    "existingMarker_" + Decimal(index)
  }

  /** The popup body of a marker, or None when no popup is bound. */
  function PopupBody(m: Marker): Option<string> {
    if Truthy(m.title) || Truthy(m.description) then
      Some(EscapeTemplate(m.title.GetOr(""))
           + (if Truthy(m.title) && Truthy(m.description) then "<br>" else "")
           + EscapeTemplate(m.description.GetOr("")))
    else None
  }

  /** What a bound popup shows: the title, `<br>` when both parts are present, the description. */
  function PopupText(m: Marker): string {
    m.title.GetOr("") + (if Truthy(m.title) && Truthy(m.description) then "<br>" else "") + m.description.GetOr("")
  }

  function MarkerBlock(index: nat, m: Marker): Section {
    ExistingMarker(MarkerName(index), LatLng(m.latitude, m.longitude), PopupBody(m), EscapeQuote(m.id))
  }

  /** `markers.map((marker, index) => ...)`: one block per marker, in input order. */
  function MarkerBlocks(markers: seq<Marker>): seq<Section> {
    seq(|markers|, i requires 0 <= i < |markers| => MarkerBlock(i, markers[i]))
  }

  /** The sections before the read-only markers: map setup, click-to-place handler, draggable marker. */
  function Opening(p: MapProps): seq<Section> {
    [MapSetup(LatLng(p.initialRegion.latitude, p.initialRegion.longitude))]
    + (if !p.disableMapClick then [ClickToPlace] else [])
    + (if p.markerCoords.Some? then [DraggableMarker(p.markerCoords.value)] else [])
  }

  /** The sections after the read-only markers: current-location marker and the `mapReady` post. */
  function Closing(p: MapProps): seq<Section> {
    (if p.currentLocation.Some? then [CurrentLocationMarker(p.currentLocation.value)] else [])
    + [MapReadyPost]
  }

  /** The body of `initMap` for the given props. */
  function InitMapBody(p: MapProps): seq<Section> {
    Opening(p) + MarkerBlocks(p.markers) + Closing(p)
  }

  /** The read-only marker sections of a page, in order. */
  function ExistingMarkers(page: seq<Section>): (r: seq<Section>)
    ensures forall k :: 0 <= k < |r| ==> r[k].ExistingMarker?
  {
    if page == [] then []
    else (if page[0].ExistingMarker? then [page[0]] else []) + ExistingMarkers(page[1..])
  }

  lemma {:induction false} ExistingMarkersAppend(a: seq<Section>, b: seq<Section>)
    ensures ExistingMarkers(a + b) == ExistingMarkers(a) + ExistingMarkers(b)
  {
    if a == [] {
      assert a + b == b;
    } else {
      assert (a + b)[0] == a[0] && (a + b)[1..] == a[1..] + b;
      ExistingMarkersAppend(a[1..], b);
    }
  }

  lemma {:induction false} ExistingMarkersOfBlocks(ms: seq<Marker>)
    ensures ExistingMarkers(MarkerBlocks(ms)) == MarkerBlocks(ms)
  {
    if ms != [] {
      var blocks := MarkerBlocks(ms);
      ExistingMarkersAllKept(blocks);
    }
  }

  lemma {:induction false} ExistingMarkersAllKept(s: seq<Section>)
    requires forall k :: 0 <= k < |s| ==> s[k].ExistingMarker?
    ensures ExistingMarkers(s) == s
  {
    if s != [] {
      ExistingMarkersAllKept(s[1..]);
      assert [s[0]] + s[1..] == s;
    }
  }

  /** The position of each kind of section in `initMap`. */
  function Rank(s: Section): nat {
    match s
    case MapSetup(_) => 0
    case ClickToPlace => 1
    case DraggableMarker(_) => 2
    case ExistingMarker(_, _, _, _) => 3
    case CurrentLocationMarker(_) => 4
    case MapReadyPost => 5
  }

  /** The sections of `s` come in `Rank` order, all ranked between `lo` and `hi`. */
  predicate RankedWithin(s: seq<Section>, lo: nat, hi: nat) {
    && (forall k :: 0 <= k < |s| ==> lo <= Rank(s[k]) <= hi)
    && (forall i, j :: 0 <= i < j < |s| ==> Rank(s[i]) <= Rank(s[j]))
  }

  lemma RankedAppend(a: seq<Section>, b: seq<Section>, lo: nat, mid: nat, hi: nat)
    requires lo <= mid <= hi
    requires RankedWithin(a, lo, mid) && RankedWithin(b, mid, hi)
    ensures RankedWithin(a + b, lo, hi)
  {
    var ab := a + b;
    forall k | 0 <= k < |ab| ensures lo <= Rank(ab[k]) <= hi {
      if k < |a| { assert ab[k] == a[k]; } else { assert ab[k] == b[k - |a|]; }
    }
    forall i, j | 0 <= i < j < |ab| ensures Rank(ab[i]) <= Rank(ab[j]) {
      if j < |a| {
        assert ab[i] == a[i] && ab[j] == a[j];
      } else if i < |a| {
        assert ab[i] == a[i] && ab[j] == b[j - |a|];
      } else {
        assert ab[i] == b[i - |a|] && ab[j] == b[j - |a|];
      }
    }
  }

  /**
   * The page opens with the map setup at the initial region's centre, the
   * click-to-place handler is there exactly when map clicks are enabled, the
   * `mapReady` post comes last and only once, and the page has one section per
   * optional part present and one per marker, plus the setup and the post.
   */
  lemma PageStructure(p: MapProps)
    ensures var page := InitMapBody(p);
      && page[0] == MapSetup(LatLng(p.initialRegion.latitude, p.initialRegion.longitude))
      && (ClickToPlace in page <==> !p.disableMapClick)
      && page[|page| - 1] == MapReadyPost
      && MapReadyPost !in page[..|page| - 1]
      && |page| == 2 + (if p.disableMapClick then 0 else 1) + (if p.markerCoords.Some? then 1 else 0)
                     + |p.markers| + (if p.currentLocation.Some? then 1 else 0)
  {
    var page := InitMapBody(p);
    var blocks := MarkerBlocks(p.markers);
    var here := if p.currentLocation.Some? then [CurrentLocationMarker(p.currentLocation.value)] else [];
    var body := Opening(p) + blocks + here;
    assert page == body + [MapReadyPost];
    assert page[..|page| - 1] == body;
    assert forall k :: 0 <= k < |blocks| ==> blocks[k].ExistingMarker?;
    assert MapReadyPost !in body;
    assert ClickToPlace in page <==> ClickToPlace in Opening(p);
  }

  /**
   * The sections come in a fixed order: setup, click-to-place handler, draggable
   * marker, read-only markers, current-location marker, `mapReady` post.
   */
  lemma PageOrder(p: MapProps)
    ensures var page := InitMapBody(p);
      forall i, j :: 0 <= i < j < |page| ==> Rank(page[i]) <= Rank(page[j])
  {
    OpeningRanked(p);
    ClosingRanked(p);
    var blocks := MarkerBlocks(p.markers);
    assert RankedWithin(blocks, 2, 3);
    RankedAppend(Opening(p), blocks, 0, 2, 3);
    RankedAppend(Opening(p) + blocks, Closing(p), 0, 3, 5);
  }

  lemma OpeningRanked(p: MapProps)
    ensures RankedWithin(Opening(p), 0, 2)
  {
    var setup := [MapSetup(LatLng(p.initialRegion.latitude, p.initialRegion.longitude))];
    var click := if !p.disableMapClick then [ClickToPlace] else [];
    var drag := if p.markerCoords.Some? then [DraggableMarker(p.markerCoords.value)] else [];
    RankedAppend(setup, click, 0, 0, 1);
    RankedAppend(setup + click, drag, 0, 1, 2);
  }

  lemma ClosingRanked(p: MapProps)
    ensures RankedWithin(Closing(p), 3, 5)
  {
    var here := if p.currentLocation.Some? then [CurrentLocationMarker(p.currentLocation.value)] else [];
    RankedAppend(here, [MapReadyPost], 3, 4, 5);
  }

  /**
   * The initial draggable marker is on the page exactly when `markerCoords` is
   * set, and sits there; likewise the current-location marker and `currentLocation`.
   */
  lemma OptionalMarkers(p: MapProps, at: LatLng)
    ensures DraggableMarker(at) in InitMapBody(p) <==> p.markerCoords == Some(at)
    ensures CurrentLocationMarker(at) in InitMapBody(p) <==> p.currentLocation == Some(at)
  {
    var setup := [MapSetup(LatLng(p.initialRegion.latitude, p.initialRegion.longitude))];
    var click := if !p.disableMapClick then [ClickToPlace] else [];
    var drag := if p.markerCoords.Some? then [DraggableMarker(p.markerCoords.value)] else [];
    var blocks := MarkerBlocks(p.markers);
    var here := if p.currentLocation.Some? then [CurrentLocationMarker(p.currentLocation.value)] else [];
    assert Opening(p) == setup + click + drag;
    assert InitMapBody(p) == setup + click + drag + blocks + here + [MapReadyPost];
    assert forall k :: 0 <= k < |blocks| ==> blocks[k].ExistingMarker?;
  }

  lemma {:induction false} NoExistingMarkers(s: seq<Section>)
    requires forall k :: 0 <= k < |s| ==> !s[k].ExistingMarker?
    ensures ExistingMarkers(s) == []
  {
    if s != [] {
      NoExistingMarkers(s[1..]);
    }
  }

  lemma ExistingMarkersOfPage(p: MapProps)
    ensures ExistingMarkers(InitMapBody(p)) == MarkerBlocks(p.markers)
  {
    var blocks := MarkerBlocks(p.markers);
    ExistingMarkersAppend(Opening(p) + blocks, Closing(p));
    ExistingMarkersAppend(Opening(p), blocks);
    NoExistingMarkers(Opening(p));
    NoExistingMarkers(Closing(p));
    ExistingMarkersOfBlocks(p.markers);
  }

  /** Distinct marker indexes give distinct `const` names. */
  lemma MarkerNamesDistinct(i: nat, j: nat)
    requires i != j
    ensures MarkerName(i) != MarkerName(j)
  {
    DecimalInjective(i, j);
    assert Decimal(i) == MarkerName(i)[|"existingMarker_"|..];
    assert Decimal(j) == MarkerName(j)[|"existingMarker_"|..];
  }

  /**
   * Exactly one read-only marker section per element of `markers`, in input order:
   * the k-th is named `existingMarker_k`, sits at the k-th marker's coordinates,
   * carries that marker's popup and its escaped id; and no two share a name.
   */
  lemma MarkerSections(p: MapProps)
    ensures var blocks := ExistingMarkers(InitMapBody(p));
      && |blocks| == |p.markers|
      && (forall k :: 0 <= k < |blocks| ==>
            && blocks[k].name == MarkerName(k)
            && blocks[k].at == LatLng(p.markers[k].latitude, p.markers[k].longitude)
            && blocks[k].popup == PopupBody(p.markers[k])
            && blocks[k].markerId == EscapeQuote(p.markers[k].id))
      && (forall i, j :: 0 <= i < j < |blocks| ==> blocks[i].name != blocks[j].name)
  {
    ExistingMarkersOfPage(p);
    var blocks := ExistingMarkers(InitMapBody(p));
    forall i, j | 0 <= i < j < |blocks| ensures blocks[i].name != blocks[j].name {
      MarkerNamesDistinct(i, j);
    }
  }

  /**
   * A popup is bound exactly when the title or the description is non-empty, and
   * for backslash-free text the template literal it is written into reads back as
   * the title, `<br>` when both are present, and the description.
   */
  lemma PopupSpec(m: Marker)
    ensures PopupBody(m).Some? <==> Truthy(m.title) || Truthy(m.description)
    ensures PopupBody(m).Some? && '\\' !in m.title.GetOr("") && '\\' !in m.description.GetOr("")
            ==> ReadTemplateBody(PopupBody(m).value) == Some(PopupText(m))
  {
    if PopupBody(m).Some? && '\\' !in m.title.GetOr("") && '\\' !in m.description.GetOr("") {
      var t, d := m.title.GetOr(""), m.description.GetOr("");
      var br := if Truthy(m.title) && Truthy(m.description) then "<br>" else "";
      EscapeTemplateIsBackslashBefore(t);
      EscapeTemplateIsBackslashBefore(d);
      BackslashBeforeNoSpecials(br, TemplateSpecials);
      BackslashBeforeAppend(t, br, TemplateSpecials);
      BackslashBeforeAppend(t + br, d, TemplateSpecials);
      var text := t + br + d;
      assert '\\' !in text;
      assert PopupBody(m).value == BackslashBefore(text, TemplateSpecials) + [];
      ReadEscapedTemplate(text, []);
      assert text + [] == text;
    }
  }

  /**
   * The marker ids written into the page read back as the input ids, one per
   * marker and in order, when no id holds a backslash, a line feed or a carriage return.
   */
  lemma MarkerIdsRoundTrip(p: MapProps)
    requires forall k :: 0 <= k < |p.markers| ==> '\\' !in p.markers[k].id
    requires forall k, i :: 0 <= k < |p.markers| && 0 <= i < |p.markers[k].id| ==> !BreaksQuotedLiteral(p.markers[k].id[i])
    ensures var blocks := ExistingMarkers(InitMapBody(p));
      |blocks| == |p.markers| &&
      forall k :: 0 <= k < |blocks| ==> ReadQuotedBody(blocks[k].markerId) == Some(p.markers[k].id)
  {
    MarkerSections(p);
    var blocks := ExistingMarkers(InitMapBody(p));
    forall k | 0 <= k < |blocks| ensures ReadQuotedBody(blocks[k].markerId) == Some(p.markers[k].id) {
      EscapeQuoteRoundTrip(p.markers[k].id);
    }
  }
}
