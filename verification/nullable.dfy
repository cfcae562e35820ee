/** Kotlin's nullable types `T?`, with the two operators the app uses on them. */
module Nullable {

  /** A value of `T?`: either `null` or a present value. */
  datatype Nullable<+T> = Null | NonNull(value: T) {

    /** Kotlin's elvis operator `this ?: default`: the value if there is one, else the default. */
    function OrElse(default: T): (r: T)
      ensures NonNull? ==> r == value
      ensures Null? ==> r == default
    {
      match this
      case NonNull(v) => v
      case Null => default
    }
  }

  /** The first element of a list, `firstOrNull()`. */
  function FirstOrNull<T>(s: seq<T>): (r: Nullable<T>)
    ensures r.Null? <==> |s| == 0
    ensures r.NonNull? ==> r.value == s[0]
  {
    if |s| == 0 then Null else NonNull(s[0])
  }
}
