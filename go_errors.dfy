/**
 * Go error values as the programs in this model build and inspect them.
 *
 * A Go `error` is an interface value that may be nil; here `Option<Error>` stands for it,
 * with `None` for nil. The three shapes of non-nil error that the program distinguishes are:
 *  - a plain error (`errors.New`, `fmt.Errorf` without `%w`),
 *  - an error with `Unwrap() error` (`fmt.Errorf` with one `%w`, or a wrapper type),
 *  - an error with `Unwrap() []error` (`errors.Join`, or `fmt.Errorf` with several `%w`).
 * Every shape carries the text its `Error()` method returns.
 */
module GoErrors {
  import opened Outcomes

  datatype Error =
    | Leaf(msg: string)
    | Wrap(msg: string, inner: Error)
    | Joined(msg: string, errs: seq<Error>)

  /** The text `err.Error()` returns. */
  function Message(e: Error): string {
    e.msg
  }

  /** `strings.Join` of the members' messages with "\n", the text of an `errors.Join` value. */
  function JoinMessages(errs: seq<Error>): string {
    if |errs| == 0 then ""
    else if |errs| == 1 then errs[0].msg
    else errs[0].msg + "\n" + JoinMessages(errs[1..])
  }

  /** The non-nil members of `errs`, in order. */
  function NonNil(errs: seq<Option<Error>>): (r: seq<Error>)
    ensures |r| <= |errs|
    ensures (|r| == 0) <==> (forall i :: 0 <= i < |errs| ==> errs[i].None?)
  {
    if |errs| == 0 then []
    else if errs[0].None? then NonNil(errs[1..])
    else [errs[0].value] + NonNil(errs[1..])
  }

  /** `errors.Join`: nil when every argument is nil, otherwise one joined error over the non-nil ones. */
  function Join(errs: seq<Option<Error>>): (r: Option<Error>)
    ensures r.None? <==> (forall i :: 0 <= i < |errs| ==> errs[i].None?)
    ensures r.Some? ==> r.value.Joined? && r.value.errs == NonNil(errs) && |r.value.errs| > 0
  {
    var nonNil := NonNil(errs);
    if |nonNil| == 0 then None else Some(Joined(JoinMessages(nonNil), nonNil))
  }

  /** `errors.Is` for errors compared by value: `target` is `e` or is reachable by unwrapping `e`. */
  predicate Is(e: Error, target: Error)
    decreases e
  {
    e == target ||
    match e
    case Leaf(_) => false
    case Wrap(_, inner) => Is(inner, target)
    case Joined(_, errs) => exists i :: 0 <= i < |errs| && Is(errs[i], target)
  }

  /** A fresh error with the given text (`errors.New`, or `fmt.Errorf` without `%w`). */
  function New(msg: string): Error {
    Leaf(msg)
  }

  /** `os.ErrNotExist`. */
  const ErrNotExist: Error := Leaf("file does not exist")
}
