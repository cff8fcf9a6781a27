/** Shared result types. The programs modelled here abort with a panic on
    malformed input (`unwrap`, `expect`, `panic!`, an index out of range);
    the model returns `Panic` on those paths instead. */
module Common {

  datatype Option<+T> = None | Some(value: T)

  datatype Result<+T> = Ok(value: T) | Panic(reason: string)

  /** Applies `f` to a successful value; a panic passes through unchanged. */
  function MapResult<T, U>(r: Result<T>, f: T -> U): (m: Result<U>)
    ensures m.Ok? <==> r.Ok?
    ensures r.Ok? ==> m.value == f(r.value)
    ensures r.Panic? ==> m == Panic(r.reason)
  {
    match r
    case Ok(v) => Ok(f(v))
    case Panic(why) => Panic(why)
  }

  /** `lines.iter().map(parse).collect()` where `parse` panics on a bad
      line: every line parsed in order, or the panic of the first bad one. */
  function CollectAll<T>(lines: seq<string>, parse: string -> Result<T>): (r: Result<seq<T>>)
    ensures r.Ok? ==> |r.value| == |lines|
    ensures r.Ok? ==> forall i :: 0 <= i < |lines| ==> parse(lines[i]) == Ok(r.value[i])
    ensures r.Ok? <==> forall i :: 0 <= i < |lines| ==> parse(lines[i]).Ok?
  {
    if lines == [] then Ok([])
    else
      match parse(lines[0])
      case Panic(why) => Panic(why)
      case Ok(first) =>
        match CollectAll(lines[1..], parse)
        case Panic(why) =>
          Panic(why)
        case Ok(rest) =>
          assert forall i :: 1 <= i < |lines| ==> lines[1..][i - 1] == lines[i];
          Ok([first] + rest)
  }

  /** The collected values are exactly the values of the lines. */
  lemma CollectedFrom<T>(lines: seq<string>, parse: string -> Result<T>, v: T)
    requires CollectAll(lines, parse).Ok?
    ensures v in CollectAll(lines, parse).value <==> exists x :: x in lines && parse(x) == Ok(v)
  {
    var values := CollectAll(lines, parse).value;
    if v in values {
      var k :| 0 <= k < |values| && values[k] == v;
      assert lines[k] in lines;
    }
    if exists x :: x in lines && parse(x) == Ok(v) {
      var x :| x in lines && parse(x) == Ok(v);
      var k :| 0 <= k < |lines| && lines[k] == x;
      assert values[k] == v;
    }
  }
}
