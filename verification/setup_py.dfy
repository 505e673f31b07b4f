/** Reading the distribution name out of `setup.py` without running it: the
    top-level statements are scanned for an expression statement that calls
    `setup`, and the value of that call's `name` keyword is taken. Only the
    part of Python's syntax tree this scan looks at is modelled; producing
    the tree from the file is not. */
module SetupPy {
  import opened Outcomes

  /** The callee of a call: a plain name (`setup`), or anything else (an
      attribute such as `setuptools.setup`, a subscript, a call), none of
      which has an `id`. */
  datatype Callee = Name(id: string) | OtherCallee

  /** A keyword argument; `arg` is None for `**kwargs`. Only a string literal
      value carries the `.s` the program reads. */
  datatype KeywordValue = StrLiteral(s: string) | OtherValue
  datatype Keyword = Keyword(arg: Option<string>, value: KeywordValue)

  /** Positional arguments play no part in the scan and are not kept. */
  datatype Call = Call(func: Callee, keywords: seq<Keyword>)

  datatype Expr = CallExpr(call: Call) | OtherExpr

  /** A top-level statement: an expression statement, or any other statement
      (an assignment, an import, a compound statement, ...). A call nested in
      another statement is never looked at. */
  datatype Stmt = ExprStmt(value: Expr) | OtherStmt

  predicate IsCallStmt(st: Stmt)
  {
    st.ExprStmt? && st.value.CallExpr?
  }

  /** An expression statement calling the plain name `setup`. */
  predicate IsSetupCallStmt(st: Stmt)
  {
    IsCallStmt(st) && st.value.call.func == Name("setup")
  }

  /** An expression statement whose callee has no `id`: reading it raises. */
  predicate RaisesOnId(st: Stmt)
  {
    IsCallStmt(st) && st.value.call.func.OtherCallee?
  }

  /** A statement the scan steps over. */
  predicate Skipped(st: Stmt)
  {
    !IsSetupCallStmt(st) && !RaisesOnId(st)
  }

  /** The loop of `_locate_setup_call` from statement `from` onwards. */
  function LocateFrom(body: seq<Stmt>, from: nat): (r: Result<Option<Call>>)
    requires from <= |body|
    ensures r == Ok(None) <==> forall i :: from <= i < |body| ==> Skipped(body[i])
    ensures r.Ok? && r.value.Some? ==>
      exists k :: from <= k < |body| && IsSetupCallStmt(body[k]) && r.value.value == body[k].value.call
        && forall i :: from <= i < k ==> Skipped(body[i])
    ensures r.Err? ==>
      r.error == CalleeHasNoId &&
      exists k :: from <= k < |body| && RaisesOnId(body[k]) && forall i :: from <= i < k ==> Skipped(body[i])
    decreases |body| - from
  {
    if from == |body| then Ok(None)
    else if IsSetupCallStmt(body[from]) then Ok(Some(body[from].value.call))
    else if RaisesOnId(body[from]) then Err(CalleeHasNoId)
    else LocateFrom(body, from + 1)
  }

  /** `_locate_setup_call`: the first top-level expression statement calling
      `setup`, or None when there is none. A call with a callee other than a
      plain name met before it raises, since such a callee has no `id`. */
  function LocateSetupCall(body: seq<Stmt>): (r: Result<Option<Call>>)
    ensures r == Ok(None) <==> forall i :: 0 <= i < |body| ==> Skipped(body[i])
    ensures r.Ok? && r.value.Some? ==>
      exists k :: 0 <= k < |body| && IsSetupCallStmt(body[k]) && r.value.value == body[k].value.call
        && forall i :: 0 <= i < k ==> Skipped(body[i])
    ensures r.Err? ==>
      r.error == CalleeHasNoId &&
      exists k :: 0 <= k < |body| && RaisesOnId(body[k]) && forall i :: 0 <= i < k ==> Skipped(body[i])
  {
    LocateFrom(body, 0)
  }

  /** The loop of `_get_name_from_setup_call` from keyword `from` onwards. */
  function NameFrom(keywords: seq<Keyword>, from: nat): (r: Result<string>)
    requires from <= |keywords|
    ensures r.Ok? ==>
      exists k :: from <= k < |keywords| && keywords[k].arg == Some("name")
        && keywords[k].value == StrLiteral(r.value)
        && forall i :: from <= i < k ==> keywords[i].arg != Some("name")
    ensures r == Err(NameKeywordMissing) <==> forall i :: from <= i < |keywords| ==> keywords[i].arg != Some("name")
    ensures r == Err(NameNotString) <==>
      exists k :: from <= k < |keywords| && keywords[k].arg == Some("name") && !keywords[k].value.StrLiteral?
        && forall i :: from <= i < k ==> keywords[i].arg != Some("name")
    ensures r.Err? ==> r.error in {NameKeywordMissing, NameNotString}
    decreases |keywords| - from
  {
    if from == |keywords| then Err(NameKeywordMissing)
    else if keywords[from].arg == Some("name") then
      (match keywords[from].value
       case StrLiteral(s) => Ok(s)
       case OtherValue => Err(NameNotString))
    else NameFrom(keywords, from + 1)
  }

  /** `_get_name_from_setup_call`: the value of the first keyword called
      `name`; an absent call (None) has no keywords to read. */
  function NameFromSetupCall(call: Option<Call>): (r: Result<string>)
    ensures call.None? ==> r == Err(NoSetupCall)
  {
    match call
    case None => Err(NoSetupCall)
    case Some(c) => NameFrom(c.keywords, 0)
  }

  /** `SetupPyParser.get_dist_name` on an already parsed module body. */
  function GetDistName(body: seq<Stmt>): (r: Result<string>)
    ensures r.Ok? ==>
      exists k :: 0 <= k < |body| && IsSetupCallStmt(body[k])
        && (forall i :: 0 <= i < k ==> Skipped(body[i]))
        && exists j :: 0 <= j < |body[k].value.call.keywords|
             && body[k].value.call.keywords[j] == Keyword(Some("name"), StrLiteral(r.value))
  {
    var call :- LocateSetupCall(body);
    NameFromSetupCall(call)
  }

  /** The scan steps over skipped statements up to the first `setup` call. */
  lemma {:induction false} LocateReaches(body: seq<Stmt>, from: nat, k: nat)
    requires from <= k < |body| && IsSetupCallStmt(body[k])
    requires forall i :: from <= i < k ==> Skipped(body[i])
    ensures LocateFrom(body, from) == Ok(Some(body[k].value.call))
    decreases k - from
  {
    if from < k {
      assert Skipped(body[from]);
      LocateReaches(body, from + 1, k);
    }
  }

  /** The keyword loop steps over other keywords up to the first `name`. */
  lemma {:induction false} NameReaches(keywords: seq<Keyword>, from: nat, k: nat)
    requires from <= k < |keywords| && keywords[k].arg == Some("name")
    requires forall i :: from <= i < k ==> keywords[i].arg != Some("name")
    ensures NameFrom(keywords, from) ==
      if keywords[k].value.StrLiteral? then Ok(keywords[k].value.s) else Err(NameNotString)
    decreases k - from
  {
    if from < k {
      NameReaches(keywords, from + 1, k);
    }
  }

  /** A module whose scan reaches a `setup(name="...")` call yields exactly
      that name, whatever follows it. */
  lemma NameOfFirstSetupCall(pre: seq<Stmt>, keywords: seq<Keyword>, post: seq<Stmt>, k: nat, name: string)
    requires forall i :: 0 <= i < |pre| ==> Skipped(pre[i])
    requires k < |keywords| && keywords[k] == Keyword(Some("name"), StrLiteral(name))
    requires forall i :: 0 <= i < k ==> keywords[i].arg != Some("name")
    ensures GetDistName(pre + [ExprStmt(CallExpr(Call(Name("setup"), keywords)))] + post) == Ok(name)
  {
    var body := pre + [ExprStmt(CallExpr(Call(Name("setup"), keywords)))] + post;
    assert forall i :: 0 <= i < |pre| ==> body[i] == pre[i];
    LocateReaches(body, 0, |pre|);
    NameReaches(keywords, 0, k);
  }

  /** A module with no top-level expression statement calling `setup`, and
      none calling anything but a plain name, fails on the absent call. */
  lemma NoSetupCallFails(body: seq<Stmt>)
    requires forall i :: 0 <= i < |body| ==> Skipped(body[i])
    ensures GetDistName(body) == Err(NoSetupCall)
  {
  }

  /** As written, a top-level call through an attribute placed before the
      `setup` call, such as `os.chdir(here)`, stops the scan with an error
      even though `setup(name="demo")` follows it. */
  lemma AttributeCallBeforeSetupRaises()
    ensures GetDistName([
      ExprStmt(CallExpr(Call(OtherCallee, []))),
      ExprStmt(CallExpr(Call(Name("setup"), [Keyword(Some("name"), StrLiteral("demo"))])))
    ]) == Err(CalleeHasNoId)
  {
  }
}
