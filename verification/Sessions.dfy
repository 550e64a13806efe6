/** The part of a TensorFlow session that the Triton backend relies on: a graph gives each fetch a value, or
    fails, as a function of the fed tensors; a callable fixes feeds and fetches in advance. */
module Sessions {
  import opened Options

  datatype Result<+T> = Ok(value: T) | Error

  /** A tensor value, or what a moved-from tensor object holds. */
  datatype Tensor = Tensor(content: string) | Moved

  type Feeds = map<string, Tensor>

  datatype Graph = Graph(fetch: (Feeds, string) -> Option<Tensor>)

  datatype CallableOptions = CallableOptions(feed: seq<string>, fetch: seq<string>)

  function FeedMap(inputs: seq<(string, Tensor)>): Feeds {
    if inputs == [] then map[]
    else FeedMap(inputs[..|inputs| - 1])[inputs[|inputs| - 1].0 := inputs[|inputs| - 1].1]
  }

  /** Exactly these names are fed, each with the value it is paired with. */
  ghost predicate Feeding(feeds: Feeds, inputs: seq<(string, Tensor)>) {
    && (forall i :: 0 <= i < |inputs| ==> inputs[i].0 in feeds && feeds[inputs[i].0] == inputs[i].1)
    && (forall n :: n in feeds ==> exists i :: 0 <= i < |inputs| && inputs[i].0 == n)
  }

  ghost predicate LastPair(inputs: seq<(string, Tensor)>, n: string, value: Tensor, i: int) {
    0 <= i < |inputs| && inputs[i] == (n, value) && forall k :: i < k < |inputs| ==> inputs[k].0 != n
  }

  /** The last pair of a name decides. */
  lemma {:induction false} FeedMapLast(inputs: seq<(string, Tensor)>, n: string)
    ensures n in FeedMap(inputs) <==> exists i :: 0 <= i < |inputs| && inputs[i].0 == n
    ensures n in FeedMap(inputs) ==> exists i :: LastPair(inputs, n, FeedMap(inputs)[n], i)
  {
    if inputs != [] {
      var m := |inputs| - 1;
      FeedMapLast(inputs[..m], n);
      if inputs[m].0 == n {
        assert LastPair(inputs, n, FeedMap(inputs)[n], m);
      } else if n in FeedMap(inputs) {
        var i :| LastPair(inputs[..m], n, FeedMap(inputs[..m])[n], i);
        assert LastPair(inputs, n, FeedMap(inputs)[n], i);
      }
    }
  }

  lemma FeedMapIs(feeds: Feeds, inputs: seq<(string, Tensor)>)
    requires Feeding(feeds, inputs)
    ensures feeds == FeedMap(inputs)
  {
    forall n ensures n in feeds <==> n in FeedMap(inputs) {
      FeedMapLast(inputs, n);
    }
    forall n | n in feeds ensures feeds[n] == FeedMap(inputs)[n] {
      FeedMapLast(inputs, n);
    }
  }

  predicate Evaluates(g: Graph, feeds: Feeds, names: seq<string>) {
    forall i :: 0 <= i < |names| ==> g.fetch(feeds, names[i]).Some?
  }

  function Fetched(g: Graph, feeds: Feeds, names: seq<string>): (r: Result<seq<Tensor>>)
    ensures r.Ok? ==> |r.value| == |names|
  {
    if Evaluates(g, feeds, names)
    then Ok(seq(|names|, i requires 0 <= i < |names| => g.fetch(feeds, names[i]).value))
    else Error
  }

  /** `session->Run(inputs, names)`: values in the order of the names, or an error if one fails. */
  function RunNamed(g: Graph, inputs: seq<(string, Tensor)>, names: seq<string>): (r: Result<seq<Tensor>>)
    ensures r.Ok? ==> |r.value| == |names|
  {
    Fetched(g, FeedMap(inputs), names)
  }

  function Named(feed: seq<string>, tensors: seq<Tensor>): (r: seq<(string, Tensor)>)
    requires |feed| == |tensors|
    ensures |r| == |feed|
  {
    seq(|feed|, i requires 0 <= i < |feed| => (feed[i], tensors[i]))
  }

  /** `session->RunCallable(handle, tensors)`: all fetches of the callable, in their order. */
  function RunPositional(g: Graph, opts: CallableOptions, tensors: seq<Tensor>): (r: Result<seq<Tensor>>)
    ensures r.Ok? ==> |r.value| == |opts.fetch|
  {
    if |tensors| != |opts.feed| then Error
    else Fetched(g, FeedMap(Named(opts.feed, tensors)), opts.fetch)
  }

  function Names(inputs: seq<(string, Tensor)>): (r: seq<string>)
    ensures |r| == |inputs|
  {
    seq(|inputs|, i requires 0 <= i < |inputs| => inputs[i].0)
  }

  function Tensors(inputs: seq<(string, Tensor)>): (r: seq<Tensor>)
    ensures |r| == |inputs|
  {
    seq(|inputs|, i requires 0 <= i < |inputs| => inputs[i].1)
  }
}
