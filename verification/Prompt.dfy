/** The bounded question loop of configure.py over a mutable copy of the environment. */
module Prompt {

  datatype Result<+T> = Ok(value: T) | UserInputError

  /** What the user types, in order; an end of input reads as the empty answer. */
  class Console {
    const answers: nat -> string
    var read: nat

    constructor (answers: nat -> string)
      ensures this.answers == answers && read == 0
    {
      this.answers := answers;
      read := 0;
    }

    method GetInput() returns (answer: string)
      modifies this
      ensures answer == answers(old(read)) && read == old(read) + 1
    {
      answer := answers(read);
      read := read + 1;
    }
  }

  class Environ {
    var vars: map<string, string>

    constructor (vars: map<string, string>)
      ensures this.vars == vars
    {
      this.vars := vars;
    }
  }

  predicate Preset(vars: map<string, string>, name: string) {
    name in vars && vars[name] != ""
  }

  /** `environ_cp.get(name) or default` */
  function ValueOr(vars: map<string, string>, name: string, default: string): string {
    if Preset(vars, name) then vars[name] else default
  }

  function AnswerOr(answer: string, default: string): string {
    if answer == "" then default else answer
  }

  function Skipped(vars: map<string, string>, name: string): nat {
    if Preset(vars, name) then 1 else 0
  }

  /** The value the k-th check sees, in terms of the state before the loop only: a preset value
      first, then one answer each, where an empty answer falls back on that same preset value. */
  function Candidate(vars: map<string, string>, name: string, default: string,
                     answers: nat -> string, start: nat, k: nat): string
  {
    if k == 0 && Preset(vars, name) then vars[name]
    else AnswerOr(answers(start + k - Skipped(vars, name)), ValueOr(vars, name, default))
  }

  /** What the k-th check is offered: a set, non-empty variable itself at first; otherwise the next answer that has not
      been read yet, and in place of an empty answer the variable or, without one, the default. */
  ghost predicate Offered(vars: map<string, string>, name: string, default: string,
                          answers: nat -> string, start: nat, k: nat, value: string) {
    if name in vars && vars[name] != "" then
      if k == 0 || answers(start + k - 1) == "" then value == vars[name] else value == answers(start + k - 1)
    else
      if answers(start + k) == "" then value == default else value == answers(start + k)
  }

  lemma CandidateIsOffered(vars: map<string, string>, name: string, default: string,
                           answers: nat -> string, start: nat, k: nat, value: string)
    ensures Offered(vars, name, default, answers, start, k, value)
            <==> value == Candidate(vars, name, default, answers, start, k)
  {}

  method GetFromEnvOrUserOrDefault(env: Environ, console: Console, name: string, default: string)
    returns (value: string)
    modifies console
    ensures name in env.vars && env.vars[name] != "" ==>
      value == env.vars[name] && console.read == old(console.read)
    ensures name !in env.vars || env.vars[name] == "" ==>
      var answer := console.answers(old(console.read));
      && console.read == old(console.read) + 1
      && (answer != "" ==> value == answer)
      && (answer == "" ==> value == default)
  {
    value := if name in env.vars then env.vars[name] else "";
    if value == "" {
      value := console.GetInput();
    }
    if value == "" {
      value := default;
    }
  }

  /** At most `attempts` checks are made. Success returns the first candidate that passes and stores it;
      failure means every candidate failed and leaves the variable empty. No other variable changes, and
      one answer is read per check, except for a check of a preset value. */
  method PromptLoopOrLoadFromEnv(env: Environ, console: Console, name: string, varDefault: string,
                                 check: string -> bool, attempts: int)
    returns (result: Result<string>, ghost checks: nat)
    modifies env, console
    ensures checks <= if attempts > 0 then attempts else 0
    ensures result.Ok? ==>
      && checks > 0
      && result.value == Candidate(old(env.vars), name, varDefault, console.answers, old(console.read), checks - 1)
      && check(result.value)
      && (forall k: nat :: k < checks - 1 ==>
            !check(Candidate(old(env.vars), name, varDefault, console.answers, old(console.read), k)))
      && env.vars == old(env.vars)[name := result.value]
    ensures result.UserInputError? ==>
      && checks == (if attempts > 0 then attempts else 0)
      && (forall k: nat :: k < attempts ==>
            !check(Candidate(old(env.vars), name, varDefault, console.answers, old(console.read), k)))
      && env.vars == if attempts > 0 then old(env.vars)[name := ""] else old(env.vars)
    ensures checks > 0 ==> console.read == old(console.read) + checks - Skipped(old(env.vars), name)
    ensures checks == 0 ==> console.read == old(console.read)
    ensures result.Ok? ==>
      && checks > 0
      && Offered(old(env.vars), name, varDefault, console.answers, old(console.read), checks - 1, result.value)
    ensures forall k: nat, value :: k < (if result.Ok? then checks - 1 else checks) ==>
      Offered(old(env.vars), name, varDefault, console.answers, old(console.read), k, value) ==> !check(value)
  {
    forall k: nat, value
      ensures Offered(old(env.vars), name, varDefault, console.answers, old(console.read), k, value)
              <==> value == Candidate(old(env.vars), name, varDefault, console.answers, old(console.read), k)
    {
      CandidateIsOffered(old(env.vars), name, varDefault, console.answers, old(console.read), k, value);
    }
    var default := ValueOr(env.vars, name, varDefault);
    var i := 0;
    checks := 0;
    while i < attempts
      invariant checks == i <= if attempts > 0 then attempts else 0
      invariant env.vars == if i > 0 then old(env.vars)[name := ""] else old(env.vars)
      invariant console.read == old(console.read) + (if i > 0 then i - Skipped(old(env.vars), name) else 0)
      invariant forall k: nat :: k < i ==>
        !check(Candidate(old(env.vars), name, varDefault, console.answers, old(console.read), k))
    {
      var value := GetFromEnvOrUserOrDefault(env, console, name, default);
      assert value == Candidate(old(env.vars), name, varDefault, console.answers, old(console.read), i);
      checks := checks + 1;
      if check(value) {
        env.vars := env.vars[name := value];
        assert env.vars == old(env.vars)[name := value];
        return Ok(value), checks;
      }
      env.vars := env.vars[name := ""];
      i := i + 1;
    }
    result := UserInputError;
  }
}
