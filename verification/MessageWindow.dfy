/** The page of a timeline around one message. */
module MessageWindow {
  import opened Common

  const DEFAULT_LIMIT := 50
  const MAX_LIMIT := 100

  datatype Row = Row(id: Ulid, place: int)

  datatype Page = Page(rows: seq<Row>, hasMore: bool, hasMoreAfter: bool, around: Option<int>)

  method MessageLimit(limit: int) returns (r: int)
    ensures 1 <= r <= MAX_LIMIT
    ensures r == if limit <= 0 then DEFAULT_LIMIT else if limit < MAX_LIMIT then limit else MAX_LIMIT
  {
    if limit <= 0 { return DEFAULT_LIMIT; }
    if limit > MAX_LIMIT { return MAX_LIMIT; }
    r := limit;
  }

  // ---- the timeline and the queries ----

  /** Rows in ascending order of their sequence number. */
  ghost predicate Ascending(rows: seq<Row>) {
    forall i, j :: 0 <= i < j < |rows| ==> rows[i].place < rows[j].place
  }

  /** How many rows lie before a position. */
  function CountBefore(timeline: seq<Row>, place: int): (n: nat)
    ensures n <= |timeline|
  {
    if timeline == [] then 0
    else if timeline[|timeline| - 1].place < place then |timeline| else CountBefore(timeline[..|timeline| - 1], place)
  }

  lemma {:induction false} CountSplits(timeline: seq<Row>, place: int)
    requires Ascending(timeline)
    ensures forall i :: 0 <= i < |timeline| ==> (i < CountBefore(timeline, place) <==> timeline[i].place < place)
  {
    if timeline != [] && timeline[|timeline| - 1].place >= place {
      CountSplits(timeline[..|timeline| - 1], place);
    }
  }

  function Older(timeline: seq<Row>, place: int): seq<Row> {
    timeline[..CountBefore(timeline, place)]
  }

  function Newer(timeline: seq<Row>, place: int): seq<Row> {
    timeline[CountBefore(timeline, place + 1)..]
  }

  function Reversed(rows: seq<Row>): (r: seq<Row>)
    ensures |r| == |rows| && forall i :: 0 <= i < |rows| ==> r[i] == rows[|rows| - 1 - i]
  {
    if rows == [] then [] else Reversed(rows[1..]) + [rows[0]]
  }

  function LastRows(rows: seq<Row>, n: nat): seq<Row> {
    if |rows| <= n then rows else rows[|rows| - n..]
  }

  function FirstRows(rows: seq<Row>, n: nat): seq<Row> {
    if |rows| <= n then rows else rows[..n]
  }

  /** ListMessagesBefore: at most `max` rows before a position, newest first. */
  function ListBefore(timeline: seq<Row>, place: int, max: nat): seq<Row> {
    Reversed(LastRows(Older(timeline, place), max))
  }

  /** ListMessagesAfter: at most `max` rows after a position, oldest first. */
  function ListAfter(timeline: seq<Row>, place: int, max: nat): seq<Row> {
    FirstRows(Newer(timeline, place), max)
  }

  // ---- the algorithms ----

  /** messagesBefore: one row more than asked for tells whether there are more; the rows are turned around. */
  method MessagesBefore(timeline: seq<Row>, place: int, limit: int) returns (rows: seq<Row>, hasMore: bool)
    ensures rows == LastRows(Older(timeline, place), if limit < 0 then 0 else limit)
    ensures hasMore <==> |Older(timeline, place)| > |rows|
  {
    if limit <= 0 {
      var one := ListBefore(timeline, place, 1);
      return [], |one| > 0;
    }
    var desc := ListBefore(timeline, place, limit + 1);
    hasMore := |desc| > limit;
    if hasMore {
      desc := desc[..limit];
    }
    rows := TurnAround(desc);
    assert rows == LastRows(Older(timeline, place), limit);
  }

  /** The loop that fills the page from its end. */
  method TurnAround(desc: seq<Row>) returns (rows: seq<Row>)
    ensures rows == Reversed(desc)
  {
    if desc == [] { return []; }
    var a := new Row[|desc|](_ => desc[0]);
    for i := 0 to |desc|
      invariant forall k :: 0 <= k < i ==> a[|desc| - 1 - k] == desc[k]
    {
      a[|desc| - 1 - i] := desc[i];
    }
    rows := a[..];
    forall k | 0 <= k < |desc| ensures rows[k] == Reversed(desc)[k] {
      assert a[|desc| - 1 - (|desc| - 1 - k)] == desc[|desc| - 1 - k];
    }
  }

  method MessagesAfter(timeline: seq<Row>, place: int, limit: int) returns (rows: seq<Row>, hasMore: bool)
    ensures rows == FirstRows(Newer(timeline, place), if limit < 0 then 0 else limit)
    ensures hasMore <==> |Newer(timeline, place)| > |rows|
  {
    if limit <= 0 {
      var one := ListAfter(timeline, place, 1);
      return [], |one| > 0;
    }
    rows := ListAfter(timeline, place, limit + 1);
    hasMore := |rows| > limit;
    if hasMore {
      rows := rows[..limit];
    }
  }

  /** messagesAround. Without the target, or with a deleted one, the newest page; every row lies before `newest`. */
  method MessagesAround(timeline: seq<Row>, target: Option<Row>, deleted: bool, limit: int, newest: int) returns (page: Page)
    requires Ascending(timeline) && 1 <= limit && forall i :: 0 <= i < |timeline| ==> timeline[i].place < newest
    ensures target.None? || deleted ==>
              && page.around == None && !page.hasMoreAfter
              && page.rows == LastRows(timeline, limit) && (page.hasMore <==> |timeline| > limit)
    ensures target.Some? && !deleted ==>
              page == Around(timeline, target.value, limit)
  {
    if target.None? || deleted {
      CountSplits(timeline, newest);
      assert Older(timeline, newest) == timeline;
      var rows, hasMore := MessagesBefore(timeline, newest, limit);
      return Page(rows, hasMore, false, None);
    }
    var place := target.value.place;
    var olderLimit := if limit / 2 < limit - 1 then limit / 2 else limit - 1;
    var older, hasMoreBefore := MessagesBefore(timeline, place, olderLimit);
    var newerLimit := limit - 1 - |older|;
    var newer, hasMoreAfter := MessagesAfter(timeline, place, newerLimit);
    page := Page(older + [target.value] + newer, hasMoreBefore, hasMoreAfter, Some(place));
  }

  /** How many older rows a page has at most. */
  function Half(limit: int): nat
    requires limit >= 1
  {
    if limit / 2 < limit - 1 then limit / 2 else limit - 1
  }

  /** The page around a target. */
  function Around(timeline: seq<Row>, target: Row, limit: int): Page
    requires limit >= 1
  {
    var older := LastRows(Older(timeline, target.place), Half(limit));
    var newer := FirstRows(Newer(timeline, target.place), limit - 1 - |older|);
    Page(older + [target] + newer, |Older(timeline, target.place)| > |older|, |Newer(timeline, target.place)| > |newer|,
         Some(target.place))
  }

  // ---- what the page is like ----

  /** The piece of the timeline around the target that the page shows. */
  ghost predicate Shows(timeline: seq<Row>, target: Row, page: Page, a: nat, b: nat) {
    var from, upto := CountBefore(timeline, target.place), CountBefore(timeline, target.place + 1);
    && a <= from && upto <= b <= |timeline|
    && page.rows == timeline[a..from] + [target] + timeline[upto..b]
    && (page.hasMore <==> a > 0) && (page.hasMoreAfter <==> b < |timeline|)
  }

  /** Half of the page is for older rows, and is full while there are any; newer rows fill the rest while there are any. */
  ghost predicate Balanced(timeline: seq<Row>, target: Row, page: Page, a: nat, b: nat, limit: int) {
    var older, newer := CountBefore(timeline, target.place) - a, b - CountBefore(timeline, target.place + 1);
    && older <= limit / 2 && (page.hasMore ==> older == limit / 2)
    && older + 1 + newer == |page.rows| <= limit && (page.hasMoreAfter ==> newer == limit - 1 - older)
  }

  lemma AroundShows(timeline: seq<Row>, target: Row, limit: int) returns (a: nat, b: nat)
    requires Ascending(timeline) && limit >= 1
    ensures Shows(timeline, target, Around(timeline, target, limit), a, b)
    ensures Balanced(timeline, target, Around(timeline, target, limit), a, b, limit)
  {
    var from, upto := CountBefore(timeline, target.place), CountBefore(timeline, target.place + 1);
    CountGrows(timeline, target.place);
    var half := Half(limit);
    a := if from <= half then 0 else from - half;
    var room := limit - 1 - (from - a);
    b := if |timeline| - upto <= room then |timeline| else upto + room;
    assert LastRows(Older(timeline, target.place), half) == timeline[a..from];
    assert FirstRows(Newer(timeline, target.place), room) == timeline[upto..b];
  }

  lemma {:induction false} CountGrows(timeline: seq<Row>, place: int)
    requires Ascending(timeline)
    ensures CountBefore(timeline, place) <= CountBefore(timeline, place + 1)
  {
    CountSplits(timeline, place);
    CountSplits(timeline, place + 1);
    var n := CountBefore(timeline, place);
    if n > 0 { assert timeline[n - 1].place < place + 1; }
  }

  /** What stands where on a page. */
  lemma ShownAt(timeline: seq<Row>, target: Row, page: Page, a: nat, b: nat, k: nat)
    requires Shows(timeline, target, page, a, b) && k < |page.rows|
    ensures var from, upto := CountBefore(timeline, target.place), CountBefore(timeline, target.place + 1);
            page.rows[k] == if k < from - a then timeline[a + k] else if k == from - a then target else timeline[upto + k - (from - a) - 1]
  {
  }

  lemma Neighbours(timeline: seq<Row>, target: Row, page: Page, a: nat, b: nat, k: nat)
    requires Ascending(timeline) && Shows(timeline, target, page, a, b) && k + 1 < |page.rows|
    ensures page.rows[k].place < page.rows[k + 1].place
  {
    CountSplits(timeline, target.place);
    CountSplits(timeline, target.place + 1);
    ShownAt(timeline, target, page, a, b, k);
    ShownAt(timeline, target, page, a, b, k + 1);
  }

  /** Rows that each stand before the next one ascend. */
  lemma {:induction false} StepwiseAscends(rows: seq<Row>, i: nat, j: nat)
    requires forall k :: 0 <= k && k + 1 < |rows| ==> rows[k].place < rows[k + 1].place
    requires i < j < |rows|
    ensures rows[i].place < rows[j].place
    decreases j - i
  {
    if i + 1 < j { StepwiseAscends(rows, i + 1, j); }
  }

  lemma ShownAscends(timeline: seq<Row>, target: Row, page: Page, a: nat, b: nat)
    requires Ascending(timeline) && Shows(timeline, target, page, a, b)
    ensures Ascending(page.rows)
  {
    forall k: nat | k + 1 < |page.rows| ensures page.rows[k].place < page.rows[k + 1].place {
      Neighbours(timeline, target, page, a, b, k);
    }
    forall i, j | 0 <= i < j < |page.rows| ensures page.rows[i].place < page.rows[j].place {
      StepwiseAscends(page.rows, i, j);
    }
  }

  /** The page around a target is the target with the rows directly before and after it, in ascending order and without a gap: a row
      of the timeline is left out only beyond the two ends. At most limit / 2 rows are older, exactly that many if even older ones
      exist; newer rows fill the page up to `limit` as long as there are any, so with enough rows on both sides they are
      limit - 1 - limit / 2. The flags say exactly whether rows exist beyond each end. */
  lemma AroundIsAWindow(timeline: seq<Row>, target: Row, limit: int)
    requires Ascending(timeline) && limit >= 1
    ensures var page := Around(timeline, target, limit);
            && Ascending(page.rows) && target in page.rows
            && exists a: nat, b: nat ::
                 && Shows(timeline, target, page, a, b)
                 && var older, newer := CountBefore(timeline, target.place) - a, b - CountBefore(timeline, target.place + 1);
                    && older <= limit / 2 && (page.hasMore ==> older == limit / 2)
                    && older + 1 + newer == |page.rows| <= limit && (page.hasMoreAfter ==> newer == limit - 1 - older)
  {
    var a, b := AroundShows(timeline, target, limit);
    ShownAscends(timeline, target, Around(timeline, target, limit), a, b);
    assert Balanced(timeline, target, Around(timeline, target, limit), a, b, limit);
    var from := CountBefore(timeline, target.place);
    assert Around(timeline, target, limit).rows[from - a] == target;
  }

  /** Between the two ends nothing is missing: every row of the timeline there is on the page, but for one in the target's place. */
  lemma NoGap(timeline: seq<Row>, target: Row, page: Page, a: nat, b: nat, i: nat)
    requires Ascending(timeline) && Shows(timeline, target, page, a, b) && a <= i < b
    ensures timeline[i] in page.rows || timeline[i].place == target.place
  {
    CountSplits(timeline, target.place);
    CountSplits(timeline, target.place + 1);
    var from, upto := CountBefore(timeline, target.place), CountBefore(timeline, target.place + 1);
    if i < from {
      assert page.rows[i - a] == timeline[i];
    } else if i >= upto {
      assert page.rows[from - a + 1 + i - upto] == timeline[i];
    }
  }
}
