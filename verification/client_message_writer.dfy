/** The writer of client calls: a method descriptor becomes a fixed program
    of protocol writes (message header, struct header with the empty name,
    one field per parameter, field stop, struct end, message end), run over
    the call's argument array. Writers are built once per method and cached.
    The writing of a single field is a parameter of the model. */
module ClientMessageWriter {
  import opened Wire
  import opened ThriftErrors
  import opened Descriptors

  /** What a run of writes produced: every token written, in order, and the
      error that stopped it if one did. */
  datatype Outcome =
    | Completed(writes: seq<Token>)
    | Aborted(writes: seq<Token>, error: Error)

  /** The writer of one field: the tokens it writes for a parameter and its
      argument, or the writes done before it failed (a null argument, say).
      It is handed the argument expression of its parameter, which has no
      value (`None`) when the argument array is too short; where that
      failure surfaces among its writes is up to the writer. */
  type FieldWriter = (FieldDesc, Option<Value>) -> Outcome

  /** One step of a compiled writer: a fixed protocol write, or parameter
      `index` written by the field writer with argument `index`. */
  datatype Step =
    | Emit(token: Token)
    | WriteParam(index: nat, param: FieldDesc)

  /** The message kind of a call of `m`. */
  function CallKind(m: MethodDesc): (k: MessageKind)
    ensures k == OneWay <==> m.isOneWay
    ensures k == Call <==> !m.isOneWay
  {
    if m.isOneWay then OneWay else Call
  }

  /** The steps for the first `n` parameters, in index order. */
  function ParamSteps(params: seq<FieldDesc>, n: nat): (steps: seq<Step>)
    requires n <= |params|
    ensures |steps| == n
    ensures forall i :: 0 <= i < n ==> steps[i] == WriteParam(i, params[i])
  {
    if n == 0 then [] else ParamSteps(params, n - 1) + [WriteParam(n - 1, params[n - 1])]
  }

  /** The program of a writer for `m`. */
  function CreateCompiledWriterForMethod(m: MethodDesc): (prog: seq<Step>)
    ensures |prog| == |m.params| + 5
    ensures prog[0] == Emit(MessageHeader(m.name, CallKind(m)))
    ensures prog[1] == Emit(StructHeader(""))
    ensures forall n :: 0 <= n < |m.params| ==> prog[n + 2] == WriteParam(n, m.params[n])
    ensures prog[|prog| - 3] == Emit(FieldStop)
    ensures prog[|prog| - 2] == Emit(StructEnd)
    ensures prog[|prog| - 1] == Emit(MessageEnd)
  {
    [Emit(MessageHeader(m.name, CallKind(m))), Emit(StructHeader(""))]
      + ParamSteps(m.params, |m.params|)
      + [Emit(FieldStop), Emit(StructEnd), Emit(MessageEnd)]
  }

  /** The argument expression of parameter `n`: element `n` of the
      argument array, if the array has one. */
  function Arg(n: nat, args: seq<Value>): (a: Option<Value>)
    ensures a.Some? <==> n < |args|
    ensures a.Some? ==> a.value == args[n]
  {
    if n < |args| then Some(args[n]) else None
  }

  /** Writing parameter `n`: the field writer gets the parameter and its
      argument expression, and whatever it writes or fails with is the
      step's outcome. */
  function WriteArg(p: FieldDesc, n: nat, args: seq<Value>, fw: FieldWriter): (o: Outcome)
    ensures n < |args| ==> o == fw(p, Some(args[n]))
    ensures n >= |args| ==> o == fw(p, None)
  {
    fw(p, Arg(n, args))
  }

  /** One step: a fixed write always completes having written exactly its
      token; a parameter step is its field write. */
  function Exec(step: Step, args: seq<Value>, fw: FieldWriter): (o: Outcome)
    ensures step.Emit? ==> o == Completed([step.token])
    ensures step.WriteParam? ==> o == WriteArg(step.param, step.index, args, fw)
  {
    match step
    case Emit(t) => Completed([t])
    case WriteParam(n, p) => WriteArg(p, n, args, fw)
  }

  /** `w` was written before `o`. */
  function Prepend(w: seq<Token>, o: Outcome): (r: Outcome)
    ensures r.Completed? <==> o.Completed?
    ensures r.writes == w + o.writes
    ensures r.Aborted? ==> r.error == o.error
  {
    match o
    case Completed(x) => Completed(w + x)
    case Aborted(x, e) => Aborted(w + x, e)
  }

  /** `a`, then `b` unless `a` failed. */
  function Then(a: Outcome, b: Outcome): Outcome {
    if a.Aborted? then a else Prepend(a.writes, b)
  }

  /** Runs a writer program: each step in order, stopping at the first
      failure with everything written so far. */
  function Run(prog: seq<Step>, args: seq<Value>, fw: FieldWriter): (r: Outcome)
    ensures prog == [] ==> r == Completed([])
  {
    if prog == [] then Completed([]) else Then(Exec(prog[0], args, fw), Run(prog[1..], args, fw))
  }

  /** A run completes exactly when every step completes; otherwise it stops
      with the error of the first step that fails, every step before it
      having completed. */
  lemma {:induction false} RunStopsAtFirstFailure(prog: seq<Step>, args: seq<Value>, fw: FieldWriter)
    ensures Run(prog, args, fw).Completed? <==> forall i :: 0 <= i < |prog| ==> Exec(prog[i], args, fw).Completed?
    ensures Run(prog, args, fw).Aborted? ==>
      exists j :: 0 <= j < |prog| && Exec(prog[j], args, fw).Aborted? && Run(prog, args, fw).error == Exec(prog[j], args, fw).error &&
        forall i :: 0 <= i < j ==> Exec(prog[i], args, fw).Completed?
  {
    if prog != [] {
      RunStopsAtFirstFailure(prog[1..], args, fw);
      assert forall i :: 1 <= i < |prog| ==> prog[i] == prog[1..][i - 1];
      if Exec(prog[0], args, fw).Completed? && Run(prog[1..], args, fw).Aborted? {
        var j :| 0 <= j < |prog[1..]| && Exec(prog[1..][j], args, fw).Aborted? &&
          Run(prog[1..], args, fw).error == Exec(prog[1..][j], args, fw).error &&
          forall i :: 0 <= i < j ==> Exec(prog[1..][i], args, fw).Completed?;
        assert Exec(prog[j + 1], args, fw).Aborted?;
        assert forall i :: 0 <= i < j + 1 ==> Exec(prog[i], args, fw).Completed?;
      }
    }
  }

  // ---------------------------------------------------------------------
  // The writer cache
  // ---------------------------------------------------------------------

  ghost predicate CacheSound(cache: map<MethodDesc, seq<Step>>) {
    forall m :: m in cache ==> cache[m] == CreateCompiledWriterForMethod(m)
  }

  /** Writes a call of `m`, building its writer on first use. The writes are
      those of a freshly built writer, the cache stays sound, and a writer
      already cached is reused without change. */
  ghost function Write(cache: map<MethodDesc, seq<Step>>, m: MethodDesc, args: seq<Value>, fw: FieldWriter)
    : (r: (Outcome, map<MethodDesc, seq<Step>>))
    requires CacheSound(cache)
    ensures r.0 == Run(CreateCompiledWriterForMethod(m), args, fw)
    ensures CacheSound(r.1) && m in r.1
    ensures r.1.Keys == cache.Keys + {m}
    ensures m in cache ==> r.1 == cache
    ensures m !in cache ==> r.1 == cache[m := CreateCompiledWriterForMethod(m)]
  {
    var cache' := if m in cache then cache else cache[m := CreateCompiledWriterForMethod(m)];
    (Run(cache'[m], args, fw), cache')
  }

  // ---------------------------------------------------------------------
  // What a call writes
  // ---------------------------------------------------------------------

  /** The tokens the field writer writes for the first `k` parameters, one
      parameter after another. */
  function Joined(params: seq<FieldDesc>, args: seq<Value>, fw: FieldWriter, k: nat): seq<Token>
    requires k <= |params|
  {
    if k == 0 then [] else Joined(params, args, fw, k - 1) + WriteArg(params[k - 1], k - 1, args, fw).writes
  }

  /** Every parameter before `k` is written without failure. */
  predicate WrittenUpTo(params: seq<FieldDesc>, args: seq<Value>, fw: FieldWriter, k: nat)
    requires k <= |params|
  {
    forall n :: 0 <= n < k ==> WriteArg(params[n], n, args, fw).Completed?
  }

  /** The tokens a call of `m` writes before its parameters. */
  function CallPrefix(m: MethodDesc): seq<Token> {
    [MessageHeader(m.name, CallKind(m)), StructHeader("")]
  }

  /** The tokens a call writes after its parameters. */
  const CallSuffix: seq<Token> := [FieldStop, StructEnd, MessageEnd]

  /** A call of `m` with arguments `args` completes exactly when every
      parameter is written, and then it writes the message header, the
      struct header, the parameters' tokens in index order, field stop,
      struct end and message end. */
  lemma CallCompletes(m: MethodDesc, args: seq<Value>, fw: FieldWriter)
    ensures WrittenUpTo(m.params, args, fw, |m.params|) ==>
      Run(CreateCompiledWriterForMethod(m), args, fw) ==
        Completed(CallPrefix(m) + Joined(m.params, args, fw, |m.params|) + CallSuffix)
    ensures Run(CreateCompiledWriterForMethod(m), args, fw).Completed? <==>
      WrittenUpTo(m.params, args, fw, |m.params|)
  {
    CallShape(m, args, fw);
    RunParamSteps(m.params, args, fw, |m.params|);
    if WrittenUpTo(m.params, args, fw, |m.params|) {
      Assoc(CallPrefix(m), Joined(m.params, args, fw, |m.params|), CallSuffix);
    } else {
      FirstFailure(m.params, args, fw, |m.params|);
    }
  }

  /** A call in which parameter `j` is the first that fails writes the same
      prefix up to and including that parameter's partial writes, nothing
      after them, and stops with that parameter's error. */
  lemma CallAborts(m: MethodDesc, args: seq<Value>, fw: FieldWriter)
    ensures forall j :: (0 <= j < |m.params| && WrittenUpTo(m.params, args, fw, j) &&
                         WriteArg(m.params[j], j, args, fw).Aborted?) ==>
        Run(CreateCompiledWriterForMethod(m), args, fw) ==
          Aborted(CallPrefix(m) + Joined(m.params, args, fw, j) + WriteArg(m.params[j], j, args, fw).writes,
                  WriteArg(m.params[j], j, args, fw).error)
  {
    CallShape(m, args, fw);
    RunParamSteps(m.params, args, fw, |m.params|);
    forall j | 0 <= j < |m.params| && WrittenUpTo(m.params, args, fw, j) && WriteArg(m.params[j], j, args, fw).Aborted?
      ensures Run(CreateCompiledWriterForMethod(m), args, fw) ==
        Aborted(CallPrefix(m) + Joined(m.params, args, fw, j) + WriteArg(m.params[j], j, args, fw).writes,
                WriteArg(m.params[j], j, args, fw).error)
    {
      Assoc(CallPrefix(m), Joined(m.params, args, fw, j), WriteArg(m.params[j], j, args, fw).writes);
    }
  }

  /** A call is its prefix, then its parameter steps, then (unless one of
      them failed) its suffix. */
  lemma CallShape(m: MethodDesc, args: seq<Value>, fw: FieldWriter)
    ensures Run(CreateCompiledWriterForMethod(m), args, fw) ==
      Prepend(CallPrefix(m), Then(Run(ParamSteps(m.params, |m.params|), args, fw), Completed(CallSuffix)))
  {
    var pre := [Emit(MessageHeader(m.name, CallKind(m))), Emit(StructHeader(""))];
    var ps := ParamSteps(m.params, |m.params|);
    var post := [Emit(FieldStop), Emit(StructEnd), Emit(MessageEnd)];
    assert CreateCompiledWriterForMethod(m) == pre + (ps + post);
    RunConcat(pre, ps + post, args, fw);
    RunConcat(ps, post, args, fw);
    RunEmits(pre, args, fw);
    RunEmits(post, args, fw);
    assert seq(|pre|, i requires 0 <= i < |pre| => pre[i].token) == CallPrefix(m);
    assert seq(|post|, i requires 0 <= i < |post| => post[i].token) == CallSuffix;
  }

  /** A method without parameters writes exactly five tokens. */
  lemma ZeroParamsWritesFive(m: MethodDesc, args: seq<Value>, fw: FieldWriter)
    requires m.params == []
    ensures Run(CreateCompiledWriterForMethod(m), args, fw) ==
      Completed([MessageHeader(m.name, CallKind(m)), StructHeader(""), FieldStop, StructEnd, MessageEnd])
  {
    CallCompletes(m, args, fw);
  }

  // ---------------------------------------------------------------------
  // Helpers
  // ---------------------------------------------------------------------

  lemma ThenAssoc(x: Outcome, y: Outcome, z: Outcome)
    ensures Then(x, Then(y, z)) == Then(Then(x, y), z)
  {
    if x.Completed? && y.Completed? {
      Assoc(x.writes, y.writes, z.writes);
    }
  }

  /** Running two programs one after the other is running their
      concatenation. */
  lemma {:induction false} RunConcat(a: seq<Step>, b: seq<Step>, args: seq<Value>, fw: FieldWriter)
    ensures Run(a + b, args, fw) == Then(Run(a, args, fw), Run(b, args, fw))
  {
    if a == [] {
      assert a + b == b;
      assert Then(Completed([]), Run(b, args, fw)) == Run(b, args, fw) by {
        assert [] + Run(b, args, fw).writes == Run(b, args, fw).writes;
      }
    } else {
      assert (a + b)[0] == a[0] && (a + b)[1..] == a[1..] + b;
      RunConcat(a[1..], b, args, fw);
      ThenAssoc(Exec(a[0], args, fw), Run(a[1..], args, fw), Run(b, args, fw));
    }
  }

  /** A program of fixed writes writes exactly its tokens. */
  lemma {:induction false} RunEmits(prog: seq<Step>, args: seq<Value>, fw: FieldWriter)
    requires forall i :: 0 <= i < |prog| ==> prog[i].Emit?
    ensures Run(prog, args, fw) == Completed(seq(|prog|, i requires 0 <= i < |prog| => prog[i].token))
  {
    if prog != [] {
      RunEmits(prog[1..], args, fw);
      assert [prog[0].token] + seq(|prog| - 1, i requires 0 <= i < |prog| - 1 => prog[1..][i].token)
        == seq(|prog|, i requires 0 <= i < |prog| => prog[i].token);
    }
  }

  /** The parameter steps write the parameters in index order and stop at
      the first that fails. */
  lemma {:induction false} RunParamSteps(params: seq<FieldDesc>, args: seq<Value>, fw: FieldWriter, k: nat)
    requires k <= |params|
    ensures WrittenUpTo(params, args, fw, k) ==>
      Run(ParamSteps(params, k), args, fw) == Completed(Joined(params, args, fw, k))
    ensures forall j :: 0 <= j < k && WrittenUpTo(params, args, fw, j) && WriteArg(params[j], j, args, fw).Aborted? ==>
      Run(ParamSteps(params, k), args, fw) ==
        Aborted(Joined(params, args, fw, j) + WriteArg(params[j], j, args, fw).writes, WriteArg(params[j], j, args, fw).error)
  {
    if k > 0 {
      RunParamSteps(params, args, fw, k - 1);
      var last := [WriteParam(k - 1, params[k - 1])];
      RunConcat(ParamSteps(params, k - 1), last, args, fw);
      assert Run(last, args, fw) == Prepend([], WriteArg(params[k - 1], k - 1, args, fw)) by {
        assert last[1..] == [];
      }
      assert WriteArg(params[k - 1], k - 1, args, fw).writes == [] + WriteArg(params[k - 1], k - 1, args, fw).writes;
    }
  }

  /** If not every parameter is written, there is a first one that fails. */
  lemma {:induction false} FirstFailure(params: seq<FieldDesc>, args: seq<Value>, fw: FieldWriter, k: nat)
    requires k <= |params|
    requires !WrittenUpTo(params, args, fw, k)
    ensures exists j :: 0 <= j < k && WrittenUpTo(params, args, fw, j) && WriteArg(params[j], j, args, fw).Aborted?
  {
    if WrittenUpTo(params, args, fw, k - 1) {
      assert WriteArg(params[k - 1], k - 1, args, fw).Aborted?;
    } else {
      FirstFailure(params, args, fw, k - 1);
    }
  }
}
