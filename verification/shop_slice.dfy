/** The `shop` slice of the Redux store and its reducer. The shop record is
    held as a key/value object so that the reducer's object spread can be
    stated as it is: keys in the payload win, every other key is kept. */
module ShopSlice {
  import opened Wrappers

  datatype RequestStatus = Init | Loading | Success | Failed

  /** `SliceState<IShopResponse>`; `E` is the serialized error type. */
  datatype SliceState<V, E> = SliceState(data: Option<map<string, V>>, error: Option<E>, asyncStatus: RequestStatus)

  function InitialState<V, E>(): (s: SliceState<V, E>)
    ensures s.data.None? && s.error.None? && s.asyncStatus == Init
  {
    SliceState(None, None, Init)
  }

  /** The two async thunks the slice listens to. */
  datatype Thunk = UpdateShopDetails | GetShopDetails

  datatype Phase<V, E> = Pending | Fulfilled(payload: map<string, V>) | Rejected(error: E)

  datatype Action<V, E> = Action(thunk: Thunk, phase: Phase<V, E>)

  /** `{ ...state.data, ...payload }`: a null `state.data` spreads to nothing. */
  function Overlay<V>(data: Option<map<string, V>>, payload: map<string, V>): (r: map<string, V>)
    ensures r.Keys == payload.Keys + (if data.Some? then data.value.Keys else {})
    ensures forall k :: k in payload ==> r[k] == payload[k]
    ensures data.Some? ==> forall k :: k in data.value && k !in payload ==> r[k] == data.value[k]
  {
    (if data.Some? then data.value else map[]) + payload
  }

  /** The extra reducers: pending marks loading; fulfilled marks success and
      spreads the payload over the stored record; rejected marks failure and
      stores the error. */
  function Reduce<V, E>(s: SliceState<V, E>, a: Action<V, E>): (r: SliceState<V, E>)
    ensures a.phase.Pending? ==> r == s.(asyncStatus := Loading)
    ensures a.phase.Fulfilled? ==> r.asyncStatus == RequestStatus.Success && r.error == s.error
                                   && r.data == Some(Overlay(s.data, a.phase.payload))
    ensures a.phase.Rejected? ==> r.asyncStatus == Failed && r.data == s.data
                                  && r.error == Some(a.phase.error)
  {
    match a.phase
    case Pending => s.(asyncStatus := Loading)
    case Fulfilled(payload) => s.(asyncStatus := RequestStatus.Success, data := Some(Overlay(s.data, payload)))
    case Rejected(error) => s.(asyncStatus := Failed, error := Some(error))
  }

  /** The source writes out one set of three cases per thunk with the same
      bodies; the model has a single reducer that does not read the thunk,
      so the two agree by the model's shape, which this lemma records. */
  lemma ThunksReduceAlike<V, E>(s: SliceState<V, E>, p: Phase<V, E>)
    ensures Reduce(s, Action(UpdateShopDetails, p)) == Reduce(s, Action(GetShopDetails, p))
  {
  }

  /** Delivering the same payload twice leaves the record as delivering it once. */
  lemma OverlayIdempotent<V>(data: Option<map<string, V>>, payload: map<string, V>)
    ensures Overlay(Some(Overlay(data, payload)), payload) == Overlay(data, payload)
  {
  }

  /** On an empty store the first fulfilled payload becomes the record as is. */
  lemma FirstPayloadIsRecord<V>(payload: map<string, V>)
    ensures Overlay(None, payload) == payload
  {
  }

  /** A success never clears a previous failure's error. */
  lemma SuccessKeepsStaleError<V, E>(s: SliceState<V, E>, t: Thunk, e: E, payload: map<string, V>)
    ensures Reduce(Reduce(s, Action(t, Rejected(e))), Action(t, Fulfilled(payload))).error == Some(e)
  {
  }

  /** Replays a sequence of actions from a state. */
  function ReduceAll<V, E>(s: SliceState<V, E>, actions: seq<Action<V, E>>): SliceState<V, E>
    decreases |actions|
  {
    if |actions| == 0 then s else ReduceAll(Reduce(s, actions[0]), actions[1..])
  }

  /** Once a record is loaded, no action sequence empties it again, and
      every key it had is still present. */
  lemma {:induction false} RecordNeverLost<V, E>(s: SliceState<V, E>, actions: seq<Action<V, E>>)
    requires s.data.Some?
    ensures ReduceAll(s, actions).data.Some?
    ensures s.data.value.Keys <= ReduceAll(s, actions).data.value.Keys
    decreases |actions|
  {
    if |actions| > 0 {
      RecordNeverLost(Reduce(s, actions[0]), actions[1..]);
    }
  }
}
