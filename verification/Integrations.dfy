/** Deciding pre-prod's integrations: parse, decide, validate, write, and what a second run sees. */
module Integrations {
  import opened Options
  import opened Text
  import opened EnvLines
  import opened EnvSetter
  import opened EnvWriter
  import opened EnvFile

  const HEADER := "Pre-prod integrations" + " — make preprod-integrations." + " See [[preprod]]"
  const STRIPE_FLAG := "STRIPE_ENABLED"
  const GEOAPIFY_FLAG := "GEOAPIFY_ENABLED"
  const USERS_KEY := "STRIPE_SECRET_KEY_USERS"
  const ORDERS_KEY := "STRIPE_SECRET_KEY_ORDERS"
  const PUBLISHABLE_KEY := "STRIPE_PUBLISHABLE_KEY"
  const CLI_KEY := "STRIPE_CLI_API_KEY"
  const GEOAPIFY_KEY := "GEOAPIFY_API_KEY"
  const WEBHOOK_SECRET := "STRIPE_WEBHOOK_SECRET"
  const USERS_TOKEN := "STRIPE_WEBHOOK_URL_TOKEN" + "_USERS"
  const ORDERS_TOKEN := "STRIPE_WEBHOOK_URL_TOKEN" + "_ORDERS"

  const FLAGS := [STRIPE_FLAG, GEOAPIFY_FLAG]
  const REQUIRED := [USERS_KEY, ORDERS_KEY, PUBLISHABLE_KEY]
  const CHECKED := [USERS_KEY, ORDERS_KEY, CLI_KEY, PUBLISHABLE_KEY]
  const AUTO_KEYS := [WEBHOOK_SECRET, USERS_TOKEN, ORDERS_TOKEN]
  const DEFAULTS: Pairs := [(STRIPE_FLAG, ""), (USERS_KEY, ""), (ORDERS_KEY, ""), (PUBLISHABLE_KEY, ""),
                            (CLI_KEY, ""), (GEOAPIFY_FLAG, ""), (GEOAPIFY_KEY, "")]

  datatype Problem = Empty(key: string) | Live(key: string) | BadPrefix(key: string)

  datatype TfVars = TfVars(
    stripeEnabled: bool, geoapifyEnabled: bool, usersKey: string, ordersKey: string,
    webhookSecret: string, usersToken: string, ordersToken: string, cidrs: string, geoapifyKey: string)

  datatype Answers = Answers(
    stripe: bool, usersKey: string, ordersKey: string, publishable: string, geoapify: bool, geoapifyKey: string)

  datatype Inputs = Inputs(
    regenerate: bool, promptAllowed: bool, isTty: bool, stripeOff: bool, geoapifyOff: bool,
    answers: Answers, cliOnPath: bool, minted: Option<(string, string, string)>, cidrs: string)

  datatype Exit = Code(n: nat) | Raised

  datatype Result = Result(text: Option<string>, tfvars: Option<TfVars>, exit: Exit)

  /** env.get(key, "") on a parsed file. */
  function Get(lines: seq<string>, key: string): string {
    if Value(lines, key).Some? then Value(lines, key).value else ""
  }

  predicate On(lines: seq<string>, flag: string) { Get(lines, flag) == "true" }

  predicate Decided(lines: seq<string>, flag: string) { Get(lines, flag) == "true" || Get(lines, flag) == "false" }

  function Undecided(lines: seq<string>): seq<string> {
    (if Decided(lines, STRIPE_FLAG) then [] else [STRIPE_FLAG]) +
    (if Decided(lines, GEOAPIFY_FLAG) then [] else [GEOAPIFY_FLAG])
  }

  predicate OccursAt(s: string, part: string, i: nat) {
    i + |part| <= |s| && s[i..i + |part|] == part
  }

  predicate Contains(s: string, part: string) {
    exists i :: 0 <= i <= |s| && OccursAt(s, part, i)
  }

  function EmptyRequired(lines: seq<string>, keys: seq<string>): seq<Problem> {
    if keys == [] then []
    else (if Get(lines, keys[0]) == "" then [Empty(keys[0])] else []) + EmptyRequired(lines, keys[1..])
  }

  function KeyProblem(key: string, value: string): seq<Problem> {
    if value == "" then []
    else if Contains(value, "_live_") then [Live(key)]
    else if key == PUBLISHABLE_KEY then if "pk_test_" <= value then [] else [BadPrefix(key)]
    else if "sk_test_" <= value || "rk_test_" <= value then [] else [BadPrefix(key)]
  }

  function BadKeys(lines: seq<string>, keys: seq<string>): seq<Problem> {
    if keys == [] then [] else KeyProblem(keys[0], Get(lines, keys[0])) + BadKeys(lines, keys[1..])
  }

  function Problems(lines: seq<string>): seq<Problem> {
    (if On(lines, STRIPE_FLAG) then EmptyRequired(lines, REQUIRED) else []) +
    (if On(lines, GEOAPIFY_FLAG) && Get(lines, GEOAPIFY_KEY) == "" then [Empty(GEOAPIFY_KEY)] else []) +
    BadKeys(lines, CHECKED)
  }

  function AutoPairs(secret: string, users: string, orders: string): Pairs {
    [(WEBHOOK_SECRET, secret), (USERS_TOKEN, users), (ORDERS_TOKEN, orders)]
  }

  /** The AUTO values already written, None when one is missing. */
  function CurrentAuto(lines: seq<string>): Option<Pairs> {
    if !On(lines, STRIPE_FLAG) then Some([])
    else if Get(lines, WEBHOOK_SECRET) == "" || Get(lines, USERS_TOKEN) == "" || Get(lines, ORDERS_TOKEN) == ""
      then None
    else Some(AutoPairs(Get(lines, WEBHOOK_SECRET), Get(lines, USERS_TOKEN), Get(lines, ORDERS_TOKEN)))
  }

  /** Fresh AUTO values, None when the CLI gives no signing secret. */
  function RegeneratedAuto(lines: seq<string>, minted: Option<(string, string, string)>): Option<Pairs> {
    if !On(lines, STRIPE_FLAG) then Some([])
    else if minted.None? then None
    else Some(AutoPairs(minted.value.0, minted.value.1, minted.value.2))
  }

  function AutoOf(lines: seq<string>, i: Inputs): Option<Pairs> {
    if i.regenerate then RegeneratedAuto(lines, i.minted) else CurrentAuto(lines)
  }

  function AutoGet(auto: Pairs, i: nat): string {
    if i < |auto| then auto[i].1 else ""
  }

  function TfVarsOf(lines: seq<string>, auto: Pairs, cidrs: string): TfVars {
    var on := On(lines, STRIPE_FLAG);
    TfVars(on, On(lines, GEOAPIFY_FLAG),
           if on then Get(lines, USERS_KEY) else "", if on then Get(lines, ORDERS_KEY) else "",
           AutoGet(auto, 0), AutoGet(auto, 1), AutoGet(auto, 2),
           if on then cidrs else "",
           if On(lines, GEOAPIFY_FLAG) then Get(lines, GEOAPIFY_KEY) else "disabled")
  }

  function StripeAnswers(a: Answers): Pairs {
    if a.stripe then
      [(STRIPE_FLAG, "true"), (USERS_KEY, Strip(a.usersKey)), (ORDERS_KEY, Strip(a.ordersKey)),
       (PUBLISHABLE_KEY, Strip(a.publishable))]
    else [(STRIPE_FLAG, "false")]
  }

  function GeoapifyAnswers(a: Answers): Pairs {
    if a.geoapify then [(GEOAPIFY_FLAG, "true"), (GEOAPIFY_KEY, Strip(a.geoapifyKey))] else [(GEOAPIFY_FLAG, "false")]
  }

  /** The answers of an interactive run, as settings in the order they are asked for. */
  function Updates(lines: seq<string>, a: Answers): Pairs {
    (if Decided(lines, STRIPE_FLAG) then [] else StripeAnswers(a)) +
    (if Decided(lines, GEOAPIFY_FLAG) then [] else GeoapifyAnswers(a))
  }

  function Offs(i: Inputs): Pairs {
    (if i.stripeOff then [(STRIPE_FLAG, "false")] else []) + (if i.geoapifyOff then [(GEOAPIFY_FLAG, "false")] else [])
  }

  /** Settings applied in order; stops at the first one the file refuses. */
  function SetAll(text: string, updates: Pairs): (string, bool)
    decreases |updates|
  {
    if updates == [] then (text, true)
    else if !HasBox(SplitLines(text)) then (text, false)
    else SetAll(SetText(text, updates[0].0, updates[0].1), updates[1..])
  }

  const FLAG_NOTE := "# Pre-prod only. " + "Each *_ENABLED is " + "true | false; empty means " +
                     "undecided and stops " + "make preprod-up."
  const KEY_NOTE := "# Test keys only — " + "any *_live_ key is " + "refused."
  const SCOPE_NOTE := "# Users' restricted key " + "(PaymentIntents: None) " + "and Orders' (PaymentIntents: " +
                      "Write); one sk_test_ in " + "both works too."
  const CLI_NOTE := "# Optional. Empty = your " + "`stripe login` session, " + "which must be the SAME " +
                    "sandbox as the keys above."

  /** The owned lines of a file created from nothing. */
  const SKELETON: seq<string> := [
    FLAG_NOTE, KEY_NOTE, Assign(STRIPE_FLAG, ""), SCOPE_NOTE, Assign(USERS_KEY, ""), Assign(ORDERS_KEY, ""),
    Assign(PUBLISHABLE_KEY, ""), CLI_NOTE, Assign(CLI_KEY, ""), Assign(GEOAPIFY_FLAG, ""), Assign(GEOAPIFY_KEY, "")]

  function Created(text: Option<string>): string {
    if text.Some? then text.value else FileText(HEADER, [], SKELETON)
  }

  /** Everything after the decisions: validate, derive, write both files. */
  function Finish(text: string, tfvars: Option<TfVars>, i: Inputs): Result {
    var lines := SplitLines(text);
    var stopped := Result(Some(text), tfvars, Code(1));
    if Problems(lines) != [] then stopped
    else if On(lines, STRIPE_FLAG) && !i.cliOnPath then stopped
    else
      var auto := AutoOf(lines, i);
      if auto.None? then stopped
      else if FirstEmpty(auto.value).Some? then Result(Some(text), tfvars, Raised)
      else Result(Some(FileText(HEADER, auto.value, Seeded(CustomBlock(lines), DEFAULTS))),
                  Some(TfVarsOf(lines, auto.value, i.cidrs)), Code(0))
  }

  /** The text once switched off and answered, and how the run ends if it stops there. */
  function Settle(text: Option<string>, i: Inputs): (s: (string, Option<Exit>))
    ensures s.1 != Some(Code(0))
  {
    var (flagged, ok) := SetAll(Created(text), Offs(i));
    if !ok then (flagged, Some(Raised))
    else if Undecided(SplitLines(flagged)) == [] then (flagged, None)
    else if !(i.promptAllowed && i.isTty) then (flagged, Some(Code(1)))
    else
      var (answered, ok') := SetAll(flagged, Updates(SplitLines(flagged), i.answers));
      (answered, if ok' then None else Some(Raised))
  }

  function RunOf(text: Option<string>, tfvars: Option<TfVars>, i: Inputs): Result {
    var (settled, stop) := Settle(text, i);
    if stop.Some? then Result(Some(settled), tfvars, stop.value) else Finish(settled, tfvars, i)
  }

  class Workspace {
    const env: File
    var tfvars: Option<TfVars>

    constructor (env: File)
      ensures this.env == env && tfvars == None
    {
      this.env := env;
      tfvars := None;
    }

    /** False when a setting was refused, with the earlier ones kept. */
    method Apply(updates: Pairs) returns (ok: bool)
      requires env.text.Some?
      modifies env
      ensures env.text.Some? && (env.text.value, ok) == SetAll(old(env.text.value), updates)
    {
      for k := 0 to |updates|
        invariant env.text.Some? && SetAll(env.text.value, updates[k..]) == SetAll(old(env.text.value), updates)
      {
        assert updates[k..][1..] == updates[k + 1..];
        var o := env.SetCustomValue(updates[k].0, updates[k].1);
        if o != Done {
          return false;
        }
      }
      return true;
    }

    method Run(i: Inputs) returns (exit: Exit)
      modifies this, env
      ensures Result(env.text, tfvars, exit) == RunOf(old(env.text), old(tfvars), i)
    {
      if env.text.None? {
        env.text := Some(FileText(HEADER, [], SKELETON));
      }
      var ok := Apply(Offs(i));
      if !ok {
        return Raised;
      }
      var lines := SplitLines(env.text.value);
      if Undecided(lines) != [] {
        if !(i.promptAllowed && i.isTty) {
          return Code(1);
        }
        ok := Apply(Updates(lines, i.answers));
        if !ok {
          return Raised;
        }
      }
      exit := Conclude(i);
    }

    /** Validate, derive the AUTO values, write both files. */
    method Conclude(i: Inputs) returns (exit: Exit)
      requires env.text.Some?
      modifies this, env
      ensures Result(env.text, tfvars, exit) == Finish(old(env.text.value), old(tfvars), i)
    {
      var lines := SplitLines(env.text.value);
      if Problems(lines) != [] || (On(lines, STRIPE_FLAG) && !i.cliOnPath) {
        return Code(1);
      }
      var auto := if i.regenerate then RegeneratedAuto(lines, i.minted) else CurrentAuto(lines);
      if auto.None? {
        return Code(1);
      }
      var o := env.WriteEnvFile(HEADER, auto.value, DEFAULTS);
      if o != Done {
        return Raised;
      }
      tfvars := Some(TfVarsOf(lines, auto.value, i.cidrs));
      return Code(0);
    }
  }
}
