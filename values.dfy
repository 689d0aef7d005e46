/** The Python values the controller passes between its steps, as far as
    their kind matters: the exceptions a step can raise and the three kinds of
    value a "port" can be. */
module Values {
  import opened Text

  /** The exceptions the model tracks. */
  datatype Error =
    | IndexError           // a field that `str.split` did not produce
    | TypeError            // `"127.0.0.1:" + port` with an int port
    | ImageNotFound        // the container runtime has no image with that tag
    | ContainerNotRunning  // the container runtime refuses to kill an exited container
    | BuildFailed          // the image build did not succeed

  datatype Result<T> = Ok(value: T) | Err(error: Error)

  datatype Option<T> = None | Some(value: T)

  /** A list result with `xs` in front, or the same error. */
  function Prefix<T>(xs: seq<T>, r: Result<seq<T>>): Result<seq<T>>
  {
    match r
    case Ok(ys) => Ok(xs + ys)
    case Err(e) => Err(e)
  }

  lemma PrefixConcat<T>(xs: seq<T>, ys: seq<T>, r: Result<seq<T>>)
    ensures Prefix(xs, Prefix(ys, r)) == Prefix(xs + ys, r)
    ensures Prefix([], r) == r
  {
    if r.Ok? {
      assert xs + (ys + r.value) == (xs + ys) + r.value;
      assert [] + r.value == r.value;
    }
  }

  /** The list of `first` followed by the list of `rest`, or the first error. */
  function Then<T>(first: Result<seq<T>>, rest: Result<seq<T>>): Result<seq<T>>
  {
    match first
    case Err(e) => Err(e)
    case Ok(xs) => Prefix(xs, rest)
  }

  lemma ThenPrefix<T>(xs: seq<T>, first: Result<seq<T>>, rest: Result<seq<T>>)
    ensures Then(Prefix(xs, first), rest) == Prefix(xs, Then(first, rest))
  {
    if first.Ok? {
      PrefixConcat(xs, first.value, rest);
    }
  }

  /** A port as the code holds it: the text of a ledger field, an int (from the
      allocator, or the `0` a ledger lookup returns on a miss), or `None` (what
      the allocator returns when every port is taken). */
  datatype PortValue = Str(text: string) | Int(number: nat) | NoneValue

  /** `str(port)`. */
  function Show(p: PortValue): string
  {
    match p
    case Str(t) => t
    case Int(n) => NatToString(n)
    case NoneValue => "None"
  }
}
