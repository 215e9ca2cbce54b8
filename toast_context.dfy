/**
 * The toast store (client/context/ToastContext.tsx): one slot shared by every
 * page, overwritten by `showToast` and emptied by `closeToast`.
 */
module ToastContext {
  import opened Options

  datatype ToastType = Success | Error | Info

  datatype Toast = Toast(message: string, kind: ToastType)

  /** What `useToast()` gives back: the provider's value, or the error it throws. */
  datatype Lookup<T> = Found(value: T) | Thrown(message: string)

  const OutsideProvider := "useToast must be used within a ToastProvider"

  /** `ToastProvider`: the `toast` state is either empty or holds exactly one toast. */
  class ToastProvider {
    var toast: Option<Toast>

    constructor ()
      ensures toast == None
    {
      toast := None;
    }

    /** `showToast` replaces whatever toast is showing. */
    method ShowToast(message: string, kind: ToastType)
      modifies this
      ensures toast == Some(Toast(message, kind))
    {
      toast := Some(Toast(message, kind));
    }

    /** `closeToast` empties the slot. */
    method CloseToast()
      modifies this
      ensures toast == None
    {
      toast := None;
    }
  }

  /** `useToast` with the nearest provider, if any; without one it throws. */
  function UseToast<T>(context: Option<T>): (r: Lookup<T>)
    ensures r.Thrown? <==> context.None?
    ensures r.Thrown? ==> r.message == OutsideProvider
    ensures r.Found? ==> r.value == context.value
  {
    match context
    case None => Thrown(OutsideProvider)
    case Some(p) => Found(p)
  }
}
