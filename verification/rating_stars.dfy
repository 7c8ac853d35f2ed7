/** The star-rating widget: the device id kept in the browser's local
    storage, the value the stars show, which stars are filled, and the
    transitions of fetching an earlier rating and submitting a new one. */
module RatingStars {
  import opened Common

  // ---------------------------------------------------------------------------
  // Device id

  /** The storage key of the device id. */
  const DeviceIdKey: string := "device_id"

  /** The prefix of a freshly made device id. */
  const DevicePrefix: string := "device_"

  /** JavaScript truthiness of `getItem`'s result: null and "" are falsy. */
  predicate Truthy(v: Option<string>) {
    v.Some? && v.value != ""
  }

  /** The store already holds a usable device id. */
  predicate HasDeviceId(items: map<string, string>) {
    DeviceIdKey in items && items[DeviceIdKey] != ""
  }

  /** The device id read-or-create, as a value: the id it yields and the store
      afterwards. `suffix` stands for the random characters
      `Math.random().toString(36).substring(2, 15)` supplies. A usable stored
      id is returned and nothing is written; otherwise `device_` followed by
      the suffix is written under the key and returned. Either way the store
      ends up holding the returned, non-empty id, and no other key changes. */
  function DeviceIdLookup(items: map<string, string>, suffix: string): (r: (string, map<string, string>))
    ensures HasDeviceId(items) ==> r.0 == items[DeviceIdKey] && r.1 == items
    ensures !HasDeviceId(items) ==> r.0 == DevicePrefix + suffix && r.1 == items[DeviceIdKey := r.0]
    ensures r.0 != "" && HasDeviceId(r.1) && r.1[DeviceIdKey] == r.0
    ensures r.1.Keys == items.Keys + {DeviceIdKey}
    ensures forall k :: k in items && k != DeviceIdKey ==> r.1[k] == items[k]
  {
    if HasDeviceId(items) then (items[DeviceIdKey], items)
    else
      var id := DevicePrefix + suffix;
      (id, items[DeviceIdKey := id])
  }

  /** The device id read-or-create, run against a store whose `getItem`
      throws unless it is `readable` and whose `setItem` throws unless it is
      `writable`. A throw ends the attempt without an id and, since the only
      write is the last step, with the store unchanged. Otherwise the id and
      the store are those of `DeviceIdLookup`. An id is obtained exactly when
      the store can be read and either already holds one or can be written. */
  function ObtainDeviceId(items: map<string, string>, suffix: string, readable: bool, writable: bool)
    : (r: (Option<string>, map<string, string>))
    ensures r.0.Some? <==> readable && (HasDeviceId(items) || writable)
    ensures r.0.Some? ==> (r.0.value, r.1) == DeviceIdLookup(items, suffix)
    ensures r.0.None? ==> r.1 == items
  {
    if !readable then (None, items)
    else if HasDeviceId(items) then (Some(items[DeviceIdKey]), items)
    else if writable then
      var id := DevicePrefix + suffix;
      (Some(id), items[DeviceIdKey := id])
    else (None, items)
  }

  /** Once a device id was obtained, every later attempt on a readable store
      returns it and writes nothing, whatever random suffix it is offered and
      even when the store can no longer be written. */
  lemma DeviceIdIdempotent(items: map<string, string>, suffix: string, suffix': string,
                           writable: bool, writable': bool)
    ensures var (id, after) := ObtainDeviceId(items, suffix, true, writable);
            id.Some? ==> ObtainDeviceId(after, suffix', true, writable') == (id, after)
  {
    var (id, after) := ObtainDeviceId(items, suffix, true, writable);
    if id.Some? {
      assert HasDeviceId(after);
    }
  }

  /** How a storage access ended: with a value, or by throwing. */
  datatype Access<T> = Done(value: T) | Threw

  /** The browser's `localStorage`: a string-to-string store. `readable` and
      `writable` say whether its reads and writes go through or throw (storage
      disabled by the browser, quota exceeded). */
  class LocalStorage {
    const readable: bool
    const writable: bool
    var items: map<string, string>

    constructor(items: map<string, string>, readable: bool, writable: bool)
      ensures this.items == items && this.readable == readable && this.writable == writable
    {
      this.items := items;
      this.readable := readable;
      this.writable := writable;
    }

    /** `getItem(key)`: the stored value, or null; it throws when the store
        cannot be read. */
    function GetItem(key: string): (v: Access<Option<string>>)
      reads this
      ensures v.Threw? <==> !readable
      ensures v.Done? ==> (v.value.Some? <==> key in items)
      ensures v.Done? && v.value.Some? ==> v.value.value == items[key]
    {
      if !readable then Threw
      else if key in items then Done(Some(items[key]))
      else Done(None)
    }

    /** `setItem(key, value)`: `ok` is false when it threw, and then nothing
        was stored. */
    method SetItem(key: string, value: string) returns (ok: bool)
      modifies this`items
      ensures ok == writable
      ensures items == if writable then old(items)[key := value] else old(items)
    {
      ok := writable;
      if writable {
        items := items[key := value];
      }
    }

    /** The read-or-create both handlers run inside their `try`: read the key,
        fall back to a fresh id when the value is falsy, and write the id back
        when a second read still finds nothing usable. `id` is None when a
        read or the write threw. */
    method GetOrCreateDeviceId(suffix: string) returns (id: Option<string>)
      modifies this`items
      ensures (id, items) == ObtainDeviceId(old(items), suffix, readable, writable)
    {
      var stored := GetItem(DeviceIdKey);
      if stored.Threw? {
        return None;
      }
      var candidate := if Truthy(stored.value) then stored.value.value else DevicePrefix + suffix;
      var again := GetItem(DeviceIdKey);
      if !Truthy(again.value) {
        var ok := SetItem(DeviceIdKey, candidate);
        if !ok {
          return None;
        }
      }
      id := Some(candidate);
    }
  }

  // ---------------------------------------------------------------------------
  // What the stars show

  /** A star or own rating as a number. */
  function AsReal(v: Option<int>): Option<real> {
    match v
    case None => None
    case Some(n) => Some(n as real)
  }

  /** The index of the first present value of `xs`, or `|xs|` when none is. */
  function FirstPresent(xs: seq<Option<real>>): (k: nat)
    ensures k <= |xs|
    ensures forall j :: 0 <= j < k ==> xs[j].None?
    ensures k < |xs| ==> xs[k].Some?
  {
    if xs == [] || xs[0].Some? then 0 else 1 + FirstPresent(xs[1..])
  }

  /** A chain of `??`: the first present value, or `fallback`. */
  function Coalesce(xs: seq<Option<real>>, fallback: real): real {
    var k := FirstPresent(xs);
    if k < |xs| then xs[k].value else fallback
  }

  /** `hoveredRating ?? rating ?? averageRating ?? 0`. */
  function DisplayRating(hovered: Option<int>, own: Option<int>, average: Option<real>): real {
    if hovered.Some? then hovered.value as real
    else if own.Some? then own.value as real
    else if average.Some? then average.value
    else 0.0
  }

  /** The value shown is the first of hovered star, own rating and average
      that is present, and 0 when none is; a present 0 counts as present. */
  lemma DisplayRatingFirstPresent(hovered: Option<int>, own: Option<int>, average: Option<real>)
    ensures DisplayRating(hovered, own, average) == Coalesce([AsReal(hovered), AsReal(own), average], 0.0)
    ensures hovered == None && own == Some(0) ==> DisplayRating(hovered, own, average) == 0.0
  {
    var xs := [AsReal(hovered), AsReal(own), average];
    if hovered.None? {
      assert xs[1..] == [AsReal(own), average];
      if own.None? {
        assert xs[1..][1..] == [average];
        assert FirstPresent(xs) == 2 + FirstPresent([average]);
        if average.None? {
          assert [average][1..] == [];
          assert FirstPresent(xs) == 3;
        } else {
          assert FirstPresent(xs) == 2;
        }
      } else {
        assert FirstPresent(xs) == 1;
      }
    } else {
      assert FirstPresent(xs) == 0;
    }
  }

  /** Hovering star 3 over an own rating of 5 and an average of 2.4 shows 3;
      once the pointer leaves, the own rating 5 shows again. */
  lemma DisplayScenario()
    ensures DisplayRating(Some(3), Some(5), Some(2.4)) == 3.0
    ensures DisplayRating(None, Some(5), Some(2.4)) == 5.0
  {
  }

  /** The star-fill test: star `star` is drawn yellow when `star <= display`
      and gray otherwise. */
  predicate StarFilled(star: int, display: real) {
    star as real <= display
  }

  /** How many of the five stars are filled: the filled ones are exactly
      stars 1..m, a prefix, with m the display value rounded down and
      clamped to 0..5. */
  function FilledCount(display: real): (m: nat)
    ensures m <= 5
    ensures forall star :: 1 <= star <= 5 ==> (StarFilled(star, display) <==> star <= m)
  {
    if display < 1.0 then 0
    else if display >= 5.0 then 5
    else
      var m := Floor(display);
      assert 1 <= m;
      m
  }

  // ---------------------------------------------------------------------------
  // The widget

  /** What the widget is given: the note, its average and count, whether it
      takes input, and whether an `onRatingChange` callback was passed. */
  datatype Props = Props(
    noteId: string,
    averageRating: Option<real>,
    ratingsCount: int,
    interactive: bool,
    hasOnRatingChange: bool)

  /** A request the widget sent to the server. */
  datatype Call =
    | RateNote(noteId: string, deviceId: string, value: int)
    | GetUserRating(noteId: string, deviceId: string)

  /** How `getUserRating` ended: with a rating or null, or by throwing. */
  datatype FetchResult = Fetched(rating: Option<int>) | FetchFailed

  /** The widget's state fields and the requests it made. */
  class RatingWidget {
    const props: Props
    var rating: Option<int>
    var hoveredRating: Option<int>
    var isLoading: bool
    /** The server requests made, oldest first. */
    var calls: seq<Call>

    constructor(props: Props)
      ensures this.props == props
      ensures rating == None && hoveredRating == None && !isLoading && calls == []
    {
      this.props := props;
      rating := None;
      hoveredRating := None;
      isLoading := false;
      calls := [];
    }

    /** The value the stars show. */
    function Display(): real
      reads this
    {
      DisplayRating(hoveredRating, rating, props.averageRating)
    }

    /** The guard of the click and hover handlers. */
    predicate AcceptsInput()
      reads this
    {
      props.interactive && !isLoading
    }

    /** The effect that fetches an earlier rating of this device. Only an
        interactive widget runs it. It obtains the device id; when that
        throws, the `catch` swallows it and nothing is asked. Otherwise it asks
        the server and adopts the answer only when it is a rating (not null
        and not an error). */
    method LoadUserRating(storage: LocalStorage, suffix: string, outcome: FetchResult)
      modifies this`rating, this`calls, storage`items
      ensures !props.interactive ==>
                rating == old(rating) && calls == old(calls) && storage.items == old(storage.items)
      ensures props.interactive ==>
                var r := ObtainDeviceId(old(storage.items), suffix, storage.readable, storage.writable);
                && storage.items == r.1
                && calls == old(calls) + (if r.0.Some? then [GetUserRating(props.noteId, r.0.value)] else [])
                && rating == (if r.0.Some? && outcome.Fetched? && outcome.rating.Some? then outcome.rating
                              else old(rating))
    {
      if props.interactive {
        var deviceId := storage.GetOrCreateDeviceId(suffix);
        if deviceId.Some? {
          calls := calls + [GetUserRating(props.noteId, deviceId.value)];
          if outcome.Fetched? && outcome.rating.Some? {
            rating := outcome.rating;
          }
        }
      }
    }

    /** `handleRating` up to the server's answer: loading is on, the device
        id obtained and, when that did not throw (`sent`), the rating sent. */
    method StartRating(newRating: int, storage: LocalStorage, suffix: string) returns (sent: bool)
      modifies this`isLoading, this`calls, storage`items
      ensures isLoading
      ensures var r := ObtainDeviceId(old(storage.items), suffix, storage.readable, storage.writable);
              && storage.items == r.1
              && (sent <==> r.0.Some?)
              && calls == old(calls) + (if sent then [RateNote(props.noteId, r.0.value, newRating)] else [])
    {
      isLoading := true;
      var deviceId := storage.GetOrCreateDeviceId(suffix);
      sent := deviceId.Some?;
      if sent {
        calls := calls + [RateNote(props.noteId, deviceId.value, newRating)];
      }
    }

    /** `handleRating` once its `try` block ended, `succeeded` when nothing in
        it threw: only then does the own rating become `newRating` and is
        `onRatingChange` called (`notified`); loading is off on both paths. */
    method SettleRating(newRating: int, succeeded: bool) returns (notified: bool)
      modifies this`rating, this`isLoading
      ensures !isLoading
      ensures rating == if succeeded then Some(newRating) else old(rating)
      ensures notified <==> succeeded && props.hasOnRatingChange
    {
      notified := false;
      if succeeded {
        rating := Some(newRating);
        if props.hasOnRatingChange {
          notified := true;
        }
      }
      isLoading := false;
    }

    /** `handleRating(newRating)`, the server answering with `succeeded`. A
        widget that takes no input returns at once: no state changes and no
        request is made. Otherwise the rating is taken only when the device
        id was obtained and the server accepted it. */
    method HandleRating(newRating: int, storage: LocalStorage, suffix: string, succeeded: bool)
      returns (notified: bool)
      modifies this`rating, this`isLoading, this`calls, storage`items
      ensures !props.interactive ==>
                && rating == old(rating) && isLoading == old(isLoading) && calls == old(calls)
                && storage.items == old(storage.items) && !notified
      ensures props.interactive ==>
                var r := ObtainDeviceId(old(storage.items), suffix, storage.readable, storage.writable);
                var taken := r.0.Some? && succeeded;
                && !isLoading
                && storage.items == r.1
                && calls == old(calls) + (if r.0.Some? then [RateNote(props.noteId, r.0.value, newRating)] else [])
                && rating == (if taken then Some(newRating) else old(rating))
                && (notified <==> taken && props.hasOnRatingChange)
    {
      notified := false;
      if !props.interactive {
        return;
      }
      var sent := StartRating(newRating, storage, suffix);
      notified := SettleRating(newRating, sent && succeeded);
    }

    /** A click on star `star`: ignored unless the widget takes input and is
        not loading. */
    method Click(star: int, storage: LocalStorage, suffix: string, succeeded: bool)
      returns (notified: bool)
      modifies this`rating, this`isLoading, this`calls, storage`items
      ensures !old(AcceptsInput()) ==>
                && rating == old(rating) && isLoading == old(isLoading) && calls == old(calls)
                && storage.items == old(storage.items) && !notified
      ensures old(AcceptsInput()) ==>
                var r := ObtainDeviceId(old(storage.items), suffix, storage.readable, storage.writable);
                var taken := r.0.Some? && succeeded;
                && !isLoading
                && storage.items == r.1
                && calls == old(calls) + (if r.0.Some? then [RateNote(props.noteId, r.0.value, star)] else [])
                && rating == (if taken then Some(star) else old(rating))
                && (notified <==> taken && props.hasOnRatingChange)
    {
      notified := false;
      if AcceptsInput() {
        notified := HandleRating(star, storage, suffix, succeeded);
      }
    }

    /** The pointer enters star `star`: it is previewed, unless input is
        ignored. */
    method MouseEnter(star: int)
      modifies this`hoveredRating
      ensures hoveredRating == if AcceptsInput() then Some(star) else old(hoveredRating)
      ensures AcceptsInput() ==> Display() == star as real
      ensures AcceptsInput() && 1 <= star <= 5 ==> FilledCount(Display()) == star
    {
      if AcceptsInput() {
        hoveredRating := Some(star);
      }
    }

    /** The pointer leaves a star: the preview ends, unless input is ignored. */
    method MouseLeave()
      modifies this`hoveredRating
      ensures hoveredRating == if AcceptsInput() then None else old(hoveredRating)
      ensures AcceptsInput() && rating.Some? ==> Display() == rating.value as real
      ensures AcceptsInput() && rating.None? ==>
                Display() == if props.averageRating.Some? then props.averageRating.value else 0.0
    {
      if AcceptsInput() {
        hoveredRating := None;
      }
    }
  }
}
