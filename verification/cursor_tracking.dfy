/**
 * cursor-tracking.js: the throttled sending of the local pointer position,
 * the conversions between screen and canvas coordinates, and the map of the
 * other users' cursors with a colour derived from each user id.
 */
module CursorTracking {
  import opened Wrappers
  import opened Entities
  import opened Canvas

  /** The least time, in milliseconds, between two positions sent. */
  const ThrottleMs: int := 50

  /** Screen to canvas coordinates: `(x - pan) / zoom`. */
  function ToCanvas(screen: real, pan: real, zoom: Zoom): real
  {
    (screen - pan) / zoom
  }

  /** Canvas to screen coordinates: `x * zoom + pan`. */
  function ToScreen(model: real, pan: real, zoom: Zoom): real
  {
    model * zoom + pan
  }

  /** Over exact reals the two conversions undo each other, in both orders. */
  lemma ConversionsAreInverse(v: real, pan: real, zoom: Zoom)
    ensures ToScreen(ToCanvas(v, pan, zoom), pan, zoom) == v
    ensures ToCanvas(ToScreen(v, pan, zoom), pan, zoom) == v
  {
  }

  /** The time of the last position sent; 0 when the page loads. */
  datatype Tracker = Tracker(lastUpdate: int)

  const PageLoad := Tracker(0)

  /** One mousemove: `Date.now()`, the pointer, the container's top-left corner, and the view. */
  datatype MouseMove = MouseMove(now: int, clientX: real, clientY: real, origin: Point, pan: Point, zoom: Zoom)

  /**
   * The mousemove handler: a position is sent exactly when at least 50 ms have
   * passed since the last one sent, and it is the pointer's position relative
   * to the container, converted to canvas coordinates.
   */
  function OnMouseMove(t: Tracker, boardId: Id, m: MouseMove): (r: (Tracker, Option<Request>))
    ensures r.1.Some? <==> m.now - t.lastUpdate >= ThrottleMs
    ensures r.1.None? ==> r.0 == t
    ensures r.1.Some? ==>
      && r.0.lastUpdate == m.now
      && r.1.value == UpdateCursorRequest(boardId, ToCanvas(m.clientX - m.origin.x, m.pan.x, m.zoom),
                                         ToCanvas(m.clientY - m.origin.y, m.pan.y, m.zoom))
  {
    if m.now - t.lastUpdate < ThrottleMs then (t, None)
    else
      var x := m.clientX - m.origin.x;
      var y := m.clientY - m.origin.y;
      (Tracker(m.now), Some(UpdateCursorRequest(boardId, (x - m.pan.x) / m.zoom, (y - m.pan.y) / m.zoom)))
  }

  /** The times at which a series of mousemoves sends a position: each is the clock reading of one of the moves. */
  function SentTimes(t: Tracker, boardId: Id, moves: seq<MouseMove>): (sent: seq<int>)
    ensures |sent| <= |moves|
    ensures forall i :: 0 <= i < |sent| ==> exists j :: 0 <= j < |moves| && moves[j].now == sent[i]
    decreases |moves|
  {
    if |moves| == 0 then []
    else
      var (t', request) := OnMouseMove(t, boardId, moves[0]);
      var rest := SentTimes(t', boardId, moves[1..]);
      var sent := (if request.Some? then [moves[0].now] else []) + rest;
      assert forall i :: 0 <= i < |sent| ==> exists j :: 0 <= j < |moves| && moves[j].now == sent[i] by {
        forall i | 0 <= i < |sent| ensures exists j :: 0 <= j < |moves| && moves[j].now == sent[i] {
          if request.Some? && i == 0 {
            assert moves[0].now == sent[i];
          } else {
            var k := if request.Some? then i - 1 else i;
            assert sent[i] == rest[k];
            var j :| 0 <= j < |moves[1..]| && moves[1..][j].now == rest[k];
            assert moves[j + 1].now == sent[i];
          }
        }
      }
      sent
  }

  /**
   * Whatever the clock does, two positions sent in a row are at least 50 ms
   * apart, and the first is at least 50 ms after the tracker's last send.
   */
  lemma {:induction false} SentTimesAreSpaced(t: Tracker, boardId: Id, moves: seq<MouseMove>)
    ensures var sent := SentTimes(t, boardId, moves);
      && (|sent| > 0 ==> sent[0] - t.lastUpdate >= ThrottleMs)
      && (forall i :: 0 < i < |sent| ==> sent[i] - sent[i - 1] >= ThrottleMs)
    decreases |moves|
  {
    if |moves| > 0 {
      var (t', request) := OnMouseMove(t, boardId, moves[0]);
      SentTimesAreSpaced(t', boardId, moves[1..]);
      var rest := SentTimes(t', boardId, moves[1..]);
      if request.Some? {
        assert SentTimes(t, boardId, moves) == [moves[0].now] + rest;
      } else {
        assert SentTimes(t, boardId, moves) == rest;
      }
    }
  }

  // ---------------------------------------------------------------------
  // The user colour

  const Palette: seq<string> := [
    "#FF6B6B", "#4ECDC4", "#45B7D1", "#FFA07A",
    "#98D8C8", "#F7DC6F", "#BB8FCE", "#85C1E2",
    "#F8B739", "#52B788", "#E76F51", "#2A9D8F"]

  const TwoTo31: int := 0x8000_0000
  const TwoTo32: int := 0x1_0000_0000

  /** ToInt32 of ECMA-262 section 7.1.6, on an integral number. */
  function ToInt32(n: int): (r: int)
    ensures -TwoTo31 <= r < TwoTo31
    ensures (r - n) % TwoTo32 == 0
    ensures -TwoTo31 <= n < TwoTo31 ==> r == n
  {
    var m := n % TwoTo32;
    if m >= TwoTo31 then m - TwoTo32 else m
  }

  /** The UTF-16 code units of one character, which `charCodeAt` reads one at a time. */
  function CodeUnits(c: char): (units: seq<int>)
    ensures 1 <= |units| <= 2
    ensures forall i :: 0 <= i < |units| ==> 0 <= units[i] < 0x1_0000
    ensures c as int < 0x1_0000 ==> units == [c as int]
    ensures c as int >= 0x1_0000 ==>
      && |units| == 2
      && 0xD800 <= units[0] < 0xDC00 <= units[1] < 0xE000
      && (units[0] - 0xD800) * 0x400 + (units[1] - 0xDC00) + 0x1_0000 == c as int
  {
    var v := c as int;
    if v < 0x1_0000 then [v]
    else [0xD800 + (v - 0x1_0000) / 0x400, 0xDC00 + (v - 0x1_0000) % 0x400]
  }

  /** A string as JavaScript sees it: a sequence of UTF-16 code units. */
  function Utf16(s: string): (units: seq<int>)
    ensures |s| <= |units| <= 2 * |s|
    ensures forall i :: 0 <= i < |units| ==> 0 <= units[i] < 0x1_0000
    ensures (forall i :: 0 <= i < |s| ==> s[i] as int < 0x1_0000) ==>
      |units| == |s| && forall i :: 0 <= i < |s| ==> units[i] == s[i] as int
  {
    if |s| == 0 then [] else CodeUnits(s[0]) + Utf16(s[1..])
  }

  /** Encoding works character by character: the units of a concatenation are the concatenated units. */
  lemma {:induction false} Utf16Append(a: string, b: string)
    ensures Utf16(a + b) == Utf16(a) + Utf16(b)
  {
    if |a| > 0 {
      Utf16Append(a[1..], b);
      assert (a + b)[0] == a[0];
      assert (a + b)[1..] == a[1..] + b;
    } else {
      assert a + b == b;
    }
  }

  /** One loop step: `hash = code + ((hash << 5) - hash)`, where `<<` works on ToInt32 of its operand. */
  function HashStep(hash: int, code: int): int
  {
    code + (ToInt32(ToInt32(hash) * 32) - hash)
  }

  /** The hash after the loop has read the given code units, starting from 0. */
  function Hash(units: seq<int>): int
  {
    if |units| == 0 then 0 else HashStep(Hash(units[..|units| - 1]), units[|units| - 1])
  }

  function Abs(n: int): nat
  {
    if n < 0 then -n else n
  }

  /**
   * The hash grows by less than 2^31 + 2^16 per code unit, so it stays an exact
   * double (below 2^53) for every id shorter than a million code units: the
   * exact integers here compute what the script computes.
   */
  lemma {:induction false} HashBound(units: seq<int>)
    requires forall i :: 0 <= i < |units| ==> 0 <= units[i] < 0x1_0000
    ensures Abs(Hash(units)) <= |units| * (TwoTo31 + 0x1_0000)
  {
    if |units| > 0 {
      var init := units[..|units| - 1];
      HashBound(init);
      var h := Hash(init);
      var shifted := ToInt32(ToInt32(h) * 32);
      assert Abs(HashStep(h, units[|units| - 1])) <= 0x1_0000 + TwoTo31 + Abs(h);
      assert |init| * (TwoTo31 + 0x1_0000) + (TwoTo31 + 0x1_0000) == |units| * (TwoTo31 + 0x1_0000);
    }
  }

  /** getUserColor: always one of the twelve palette colours, chosen by the hash of the id. */
  function UserColor(userId: string): (c: string)
    ensures c in Palette
  {
    Palette[Abs(Hash(Utf16(userId))) % |Palette|]
  }

  /** The empty id hashes to 0 and gets the first colour. */
  lemma EmptyIdColor()
    ensures UserColor("") == "#FF6B6B"
  {
  }

  // ---------------------------------------------------------------------
  // Remote cursors

  /** A cursorMoved event. */
  datatype CursorPosition = CursorPosition(userId: string, username: string, x: real, y: real, timestamp: string)

  /** A remote cursor on screen: name and colour fixed when it was first drawn, and its position. */
  datatype RemoteCursor = RemoteCursor(username: string, color: string, left: real, top: real)

  /** isOwnCursor: the event is about the signed-in user (never so when no user id is known). */
  predicate IsOwnCursor(userId: string, currentUserId: Option<string>)
  {
    currentUserId == Some(userId)
  }

  /**
   * updateRemoteCursor: the first event for a user draws a cursor with that
   * user's name and colour; later ones only move it. The cursor is placed at
   * the event's canvas position converted to screen coordinates. No other
   * cursor changes, and none is ever removed.
   */
  function UpdateRemoteCursor(cursors: map<string, RemoteCursor>, c: CursorPosition, pan: Point, zoom: Zoom)
    : (r: map<string, RemoteCursor>)
    ensures r.Keys == cursors.Keys + {c.userId}
    ensures forall k :: k in cursors && k != c.userId ==> r[k] == cursors[k]
    ensures r[c.userId].left == ToScreen(c.x, pan.x, zoom) && r[c.userId].top == ToScreen(c.y, pan.y, zoom)
    ensures c.userId in cursors ==>
      r[c.userId].username == cursors[c.userId].username && r[c.userId].color == cursors[c.userId].color
    ensures c.userId !in cursors ==>
      r[c.userId].username == c.username && r[c.userId].color == UserColor(c.userId)
  {
    var drawn :=
      if c.userId in cursors then cursors[c.userId]
      else RemoteCursor(c.username, UserColor(c.userId), 0.0, 0.0);
    cursors[c.userId := drawn.(left := c.x * zoom + pan.x, top := c.y * zoom + pan.y)]
  }

  /** The cursorMoved handler: the user's own cursor is skipped, any other is upserted. */
  function OnCursorMoved(cursors: map<string, RemoteCursor>, currentUserId: Option<string>,
                         c: CursorPosition, pan: Point, zoom: Zoom): (r: map<string, RemoteCursor>)
    ensures IsOwnCursor(c.userId, currentUserId) ==> r == cursors
    ensures !IsOwnCursor(c.userId, currentUserId) ==> r == UpdateRemoteCursor(cursors, c, pan, zoom)
  {
    if IsOwnCursor(c.userId, currentUserId) then cursors else UpdateRemoteCursor(cursors, c, pan, zoom)
  }

  /** The cursors after a series of events, each seen with the view of its moment. */
  datatype CursorEvent = CursorEvent(position: CursorPosition, pan: Point, zoom: Zoom)

  function ApplyCursorEvents(cursors: map<string, RemoteCursor>, currentUserId: Option<string>,
                             events: seq<CursorEvent>): map<string, RemoteCursor>
    decreases |events|
  {
    if |events| == 0 then cursors
    else
      var e := events[0];
      ApplyCursorEvents(OnCursorMoved(cursors, currentUserId, e.position, e.pan, e.zoom), currentUserId, events[1..])
  }

  /**
   * Over any series of events the set of drawn cursors only grows, by exactly
   * the other users seen, and the signed-in user's own cursor is never drawn.
   */
  lemma {:induction false} CursorsOnlyGrow(cursors: map<string, RemoteCursor>, currentUserId: Option<string>,
                                           events: seq<CursorEvent>)
    ensures var r := ApplyCursorEvents(cursors, currentUserId, events);
      && cursors.Keys <= r.Keys
      && (forall k :: k in r && k !in cursors ==>
            !IsOwnCursor(k, currentUserId) && exists i :: 0 <= i < |events| && events[i].position.userId == k)
    decreases |events|
  {
    if |events| > 0 {
      var e := events[0];
      var next := OnCursorMoved(cursors, currentUserId, e.position, e.pan, e.zoom);
      CursorsOnlyGrow(next, currentUserId, events[1..]);
      var r := ApplyCursorEvents(cursors, currentUserId, events);
      forall k | k in r && k !in cursors
        ensures !IsOwnCursor(k, currentUserId) && exists i :: 0 <= i < |events| && events[i].position.userId == k
      {
        if k in next {
          assert events[0].position.userId == k;
        } else {
          var i :| 0 <= i < |events[1..]| && events[1..][i].position.userId == k;
          assert events[i + 1].position.userId == k;
        }
      }
    }
  }
}
