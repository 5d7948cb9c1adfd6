/** The toast list: adding a toast (with the automatic-removal decision),
    removing toasts by id and clearing the list; the options the `toast`
    function and its convenience helpers build; and the icon and style of
    each variant. The random id and the clock are parameters. */
module Toaster {
  import opened Js
  import opened Seqs
  import opened Coerce

  /** The default lifetime of a toast, in milliseconds. */
  const DefaultDuration: real := 5000.0

  /** `{ id, ...toast, createdAt }`: a caller's `id` replaces the generated
      one, the creation time always wins. */
  function NewToast(toast: Fields, id: string, now: real): (t: Fields)
    ensures t.Keys == toast.Keys + {"id", "createdAt"}
    ensures t["createdAt"] == Num(now)
    ensures t["id"] == if "id" in toast then toast["id"] else Str(id)
    ensures forall k :: k in toast && k != "createdAt" ==> t[k] == toast[k]
  {
    (map["id" := Str(id)] + toast)["createdAt" := Num(now)]
  }

  /** `toast.duration || 5000`: a missing or falsy duration is the
      default. */
  function Duration(toast: Fields): JsValue
  {
    Or(Get(toast, "duration"), Num(DefaultDuration))
  }

  /** `duration > 0`: the duration is converted to a number first, so a
      numeric string counts by its value. */
  predicate Positive(v: JsValue)
  {
    match NumberOf(v)
    case Finite(x) => x > 0.0
    case Infinity(negative) => !negative
    case NaN => false
  }

  const TwoTo31 := 0x8000_0000
  const TwoTo32 := 0x1_0000_0000

  /** The delay `setTimeout` waits for a timeout argument: the number is cut
      to a whole count of milliseconds, wrapped to a signed 32-bit integer
      (`NaN` and the infinities give 0), and a negative count waits 0. */
  function TimerDelay(n: Number): (r: real)
    ensures r >= 0.0 && r == r.Floor as real
    ensures n.Finite? && 0.0 <= n.x < TwoTo31 as real ==> r == n.x.Floor as real
  {
    match n
    case Finite(x) =>
      var whole := if x >= 0.0 then x.Floor else -((-x).Floor);
      var wrapped := whole % TwoTo32;
      var signed := if wrapped >= TwoTo31 then wrapped - TwoTo32 else wrapped;
      if signed < 0 then 0.0 else signed as real
    case _ => 0.0
  }

  /** The delay after which the toast is removed, when removal is
      scheduled. */
  function RemovalDelay(toast: Fields): Option<real>
  {
    var d := Duration(toast);
    if Positive(d) then Some(TimerDelay(NumberOf(d))) else None
  }

  /** A missing, zero or other falsy duration becomes the five-second
      default; otherwise the toast is removed exactly when its duration
      converts to a number above zero, after that many whole milliseconds.
      So a negative number, a string such as `"0"` or `"-5"`, text that is
      not a number, or an object keeps the toast on screen, while the
      string `"100"` removes it after 100 ms like the number 100. */
  lemma RemovalRule(toast: Fields)
    ensures !Truthy(Get(toast, "duration")) ==> RemovalDelay(toast) == Some(DefaultDuration)
    ensures Truthy(Get(toast, "duration")) ==>
      (RemovalDelay(toast).Some? <==> Positive(Get(toast, "duration")))
    ensures var d := Get(toast, "duration");
      d.Num? ==> (RemovalDelay(toast).None? <==> d.n < 0.0)
    ensures var d := Get(toast, "duration");
      d.Str? && d.s != "" ==> forall x :: StringToNumber(d.s) == Finite(x) ==> (RemovalDelay(toast).None? <==> x <= 0.0)
    ensures var n := NumberOf(Get(toast, "duration"));
      Truthy(Get(toast, "duration")) && n.Finite? && 0.0 < n.x < TwoTo31 as real ==>
        RemovalDelay(toast) == Some(n.x.Floor as real)
  {
  }

  /** A numeric string is a delay like the number it spells. */
  lemma StringDuration()
    ensures RemovalDelay(map["duration" := Str("100")]) == Some(100.0)
  {
    HundredText();
    var toast := map["duration" := Str("100")];
    assert Get(toast, "duration") == Str("100");
    assert Truthy(Str("100"));
  }

  /** `prev.filter(toast => toast.id !== id)`. */
  function WithoutToast(toasts: seq<Fields>, id: JsValue): (r: seq<Fields>)
    ensures |r| <= |toasts|
    ensures forall t :: t in r <==> t in toasts && Get(t, "id") != id
    ensures forall t :: Count(r, t) == if Get(t, "id") != id then Count(toasts, t) else 0
  {
    var keep := (t: Fields) => Get(t, "id") != id;
    assert forall t :: Count(Filter(toasts, keep), t) == if Get(t, "id") != id then Count(toasts, t) else 0 by {
      forall t { FilterCount(toasts, keep, t); }
    }
    Filter(toasts, keep)
  }

  /** Removing keeps the other toasts in order, removes every toast with the
      id, and keeps the list when no toast has it. */
  lemma RemoveFacts(toasts: seq<Fields>, id: JsValue)
    ensures IsSubseq(WithoutToast(toasts, id), toasts)
    ensures forall i :: 0 <= i < |toasts| && Get(toasts[i], "id") != id ==> toasts[i] in WithoutToast(toasts, id)
    ensures (forall i :: 0 <= i < |toasts| ==> Get(toasts[i], "id") != id) ==> WithoutToast(toasts, id) == toasts
  {
    if forall i :: 0 <= i < |toasts| ==> Get(toasts[i], "id") != id {
      FilterAll(toasts, (t: Fields) => Get(t, "id") != id);
    }
  }

  /** The argument of `toast(...)`: a plain string, or an options object. */
  datatype ToastArg = Text(title: string) | Options(fields: Fields)

  /** The options `toast(options)` passes on. */
  function ToastOptions(arg: ToastArg): (o: Fields)
    ensures arg.Text? ==> Get(o, "title") == Str(arg.title) && Get(o, "variant") == Str("default")
    ensures arg.Options? ==> o == arg.fields
  {
    match arg
    case Text(title) => map["title" := Str(title), "variant" := Str("default")]
    case Options(fields) => fields
  }

  /** The convenience helpers. */
  datatype Helper = Success | Error | Warning | Info

  function HelperVariant(h: Helper): string
  {
    match h
    case Success => "success"
    case Error => "destructive"
    case Warning => "warning"
    case Info => "info"
  }

  /** `toast.success(title, description)` and its siblings. */
  function HelperOptions(h: Helper, title: JsValue, description: JsValue): (o: Fields)
    ensures o.Keys == {"title", "description", "variant"}
    ensures o["title"] == title && o["description"] == description
    ensures o["variant"] == Str(HelperVariant(h))
  {
    map["title" := title, "description" := description, "variant" := Str(HelperVariant(h))]
  }

  datatype Icon = CheckCircle | AlertCircle | AlertTriangle | InfoIcon

  /** `getIcon(variant)`: no icon for an unknown variant. */
  function GetIcon(variant: JsValue): Option<Icon>
  {
    if variant == Str("success") then Some(CheckCircle)
    else if variant == Str("destructive") then Some(AlertCircle)
    else if variant == Str("warning") then Some(AlertTriangle)
    else if variant == Str("info") then Some(InfoIcon)
    else None
  }

  const PlainStyle := "bg-white border-gray-200 text-gray-900"

  /** `getStyles(variant)`: the plain style for an unknown variant. */
  function GetStyles(variant: JsValue): string
  {
    if variant == Str("success") then "bg-green-50 border-green-200 text-green-800"
    else if variant == Str("destructive") then "bg-red-50 border-red-200 text-red-800"
    else if variant == Str("warning") then "bg-yellow-50 border-yellow-200 text-yellow-800"
    else if variant == Str("info") then "bg-blue-50 border-blue-200 text-blue-800"
    else PlainStyle
  }

  /** A variant has an icon exactly when it has its own style. */
  lemma VariantMaps(variant: JsValue)
    ensures GetIcon(variant).Some? <==> GetStyles(variant) != PlainStyle
  {
    assert PlainStyle[3] == 'w';
  }

  /** Every helper builds a variant with an icon, each helper a different
      one, and a string toast gets none. */
  lemma HelperIcons(h: Helper, title: JsValue, description: JsValue)
    ensures GetIcon(HelperOptions(h, title, description)["variant"]).Some?
    ensures forall h' :: h' != h ==> GetIcon(Str(HelperVariant(h'))) != GetIcon(Str(HelperVariant(h)))
    ensures forall t :: GetIcon(Get(ToastOptions(Text(t)), "variant")).None?
  {
  }

  /** The toasts on screen. */
  class ToastList {
    var toasts: seq<Fields>

    constructor()
      ensures toasts == []
    {
      toasts := [];
    }

    /** `addToast(toast)`: appends the new toast and returns the generated
        id, with the removal delay when removal is scheduled. */
    method AddToast(toast: Fields, randomId: string, now: real) returns (id: string, removeAfter: Option<real>)
      modifies this
      ensures toasts == old(toasts) + [NewToast(toast, randomId, now)]
      ensures id == randomId
      ensures removeAfter == RemovalDelay(toast)
    {
      id := randomId;
      toasts := toasts + [NewToast(toast, id, now)];
      var duration := Duration(toast);
      removeAfter := None;
      if Positive(duration) {
        removeAfter := Some(TimerDelay(NumberOf(duration)));
      }
    }

    /** `toast(options)`. */
    method Toast(arg: ToastArg, randomId: string, now: real) returns (id: string, removeAfter: Option<real>)
      modifies this
      ensures toasts == old(toasts) + [NewToast(ToastOptions(arg), randomId, now)]
      ensures id == randomId && removeAfter == RemovalDelay(ToastOptions(arg))
    {
      id, removeAfter := AddToast(ToastOptions(arg), randomId, now);
    }

    /** `toast.success(...)`, `toast.error(...)`, `toast.warning(...)`,
        `toast.info(...)`. */
    method Notify(h: Helper, title: JsValue, description: JsValue, randomId: string, now: real)
      returns (id: string, removeAfter: Option<real>)
      modifies this
      ensures toasts == old(toasts) + [NewToast(HelperOptions(h, title, description), randomId, now)]
      ensures id == randomId && removeAfter == Some(DefaultDuration)
    {
      id, removeAfter := AddToast(HelperOptions(h, title, description), randomId, now);
    }

    /** `removeToast(id)`. */
    method RemoveToast(id: JsValue)
      modifies this
      ensures toasts == WithoutToast(old(toasts), id)
    {
      toasts := WithoutToast(toasts, id);
    }

    /** `removeAllToasts()`. */
    method RemoveAllToasts()
      modifies this
      ensures toasts == []
    {
      toasts := [];
    }
  }

  /** A caller's own `id` option replaces the generated id in the stored
      toast, while `addToast` still returns, and schedules the removal of,
      the generated one; when the two differ, that removal leaves the toast
      in place. */
  lemma CallerIdSurvivesRemoval(toasts: seq<Fields>, toast: Fields, randomId: string, now: real)
    requires "id" in toast && toast["id"] != Str(randomId)
    ensures var t := NewToast(toast, randomId, now);
      t in WithoutToast(toasts + [t], Str(randomId))
  {
  }
}
