/**
 * The configuration merge algebra behind `merge_config`: a config is a set
 * of tokens written sorted, de-duplicated and comma-joined, with the word
 * "standard" standing for the empty set. A command adds, removes or
 * replaces tokens.
 */
module Config {
  import opened Text

  const Standard: string := "standard"

  /** A token that survives being written into a config string and read back. */
  predicate ValidToken(t: string)
  {
    t != "" && t != Standard && ',' !in t
  }

  /** The tokens a config string holds; the empty piece and the "standard" sentinel are no tokens. */
  function ConfigTokens(config: string): (r: seq<string>)
    ensures forall t :: t in r <==> t in Split(config, ',') && ValidToken(t)
  {
    ValidPieces(Split(config, ','))
  }

  function ValidPieces(pieces: seq<string>): (r: seq<string>)
    ensures forall t :: t in r <==> t in pieces && ValidToken(t)
  {
    if pieces == [] then []
    else (if ValidToken(pieces[0]) then [pieces[0]] else []) + ValidPieces(pieces[1..])
  }

  function TokenSet(config: string): set<string>
  {
    set t | t in ConfigTokens(config)
  }

  /** Strictly increasing in code-point order: sorted and without duplicates. */
  predicate StrictlySorted(s: seq<string>)
  {
    forall i, j :: 0 <= i < j < |s| ==> LexLess(s[i], s[j])
  }

  /** Inserts `x` into a strictly sorted sequence, keeping it strictly sorted. */
  function Insert(x: string, s: seq<string>): (r: seq<string>)
    requires StrictlySorted(s)
    ensures StrictlySorted(r)
    ensures forall t :: t in r <==> t == x || t in s
  {
    if s == [] then [x]
    else if x == s[0] then s
    else if LexLess(x, s[0]) then
      InsertFront(x, s);
      [x] + s
    else
      LexLessTotal(x, s[0]);
      var rest := Insert(x, s[1..]);
      InsertBehind(s[0], rest);
      [s[0]] + rest
  }

  lemma InsertFront(x: string, s: seq<string>)
    requires StrictlySorted(s) && s != [] && LexLess(x, s[0])
    ensures StrictlySorted([x] + s)
  {
    forall j | 0 < j < |s| ensures LexLess(x, s[j]) {
      LexLessTransitive(x, s[0], s[j]);
    }
  }

  lemma InsertBehind(y: string, rest: seq<string>)
    requires StrictlySorted(rest)
    requires forall t :: t in rest ==> LexLess(y, t)
    ensures StrictlySorted([y] + rest)
  {
    forall j | 0 <= j < |rest| ensures LexLess(y, rest[j]) {
      assert rest[j] in rest;
    }
  }

  /** The tokens of `ts`, sorted and de-duplicated. */
  function SortedSet(ts: seq<string>): (r: seq<string>)
    ensures StrictlySorted(r)
    ensures forall t :: t in r <==> t in ts
  {
    if ts == [] then [] else Insert(ts[0], SortedSet(ts[1..]))
  }

  /** The config string of a token list: sorted, de-duplicated and comma-joined, or "standard" when empty. */
  function Canonical(ts: seq<string>): string
  {
    var sorted := SortedSet(ts);
    if sorted == [] then Standard else Join(sorted, ',')
  }

  /** The tokens of `ts` other than those `drop` rejects, in order. */
  function Without(ts: seq<string>, drop: string -> bool): (r: seq<string>)
    ensures forall t :: t in r <==> t in ts && !drop(t)
  {
    if ts == [] then []
    else (if drop(ts[0]) then [] else [ts[0]]) + Without(ts[1..], drop)
  }

  predicate IsSizeToken(t: string)
  {
    "size-" <= t
  }

  /** The commands `merge_config` understands, in the order it tries them. */
  datatype Command =
    | Enable(feature: string)
    | Disable(feature: string)
    | DebugOn
    | DebugOff
    | Size(size: string)
    | Unknown

  function ParseCommand(command: string): Command
  {
    if "enable-" <= command then Enable(Lower(command[7..]))
    else if "disable-" <= command then Disable(Lower(command[8..]))
    else if command == "debug-on" then DebugOn
    else if command == "debug-off" then DebugOff
    else if "size-" <= command then Size(Lower(command[5..]))
    else Unknown
  }

  /** `merge_config(current, command)`; an unknown command leaves the config as it was. */
  function MergeConfig(current: string, command: string): string
  {
    var ts := ConfigTokens(current);
    match ParseCommand(command)
    case Enable(f) => Canonical(Without(ts, t => t == f || t == "no-" + f) + [f])
    case Disable(f) => Canonical(Without(ts, t => t == f) + ["no-" + f])
    case DebugOn => Canonical(ts + ["debug"])
    case DebugOff => Canonical(Without(ts, t => t == "debug"))
    case Size(z) => Canonical(Without(ts, IsSizeToken) + ["size-" + z])
    case Unknown => current
  }

  /** The effect of a command on a token set: the reference meaning `MergeConfig` must have. */
  ghost function Effect(tokens: set<string>, cmd: Command): set<string>
  {
    match cmd
    case Enable(f) => tokens - {f, "no-" + f} + {f}
    case Disable(f) => tokens - {f} + {"no-" + f}
    case DebugOn => tokens + {"debug"}
    case DebugOff => tokens - {"debug"}
    case Size(z) => (set t | t in tokens && !IsSizeToken(t)) + {"size-" + z}
    case Unknown => tokens
  }

  /** The token a recognised command adds, if any. */
  function AddedToken(cmd: Command): string
  {
    match cmd
    case Enable(f) => f
    case Disable(f) => "no-" + f
    case DebugOn => "debug"
    case DebugOff => "debug"
    case Size(z) => "size-" + z
    case Unknown => "debug"
  }

  /** A comma-joined string is canonical when it is "standard" or the join of strictly sorted valid tokens. */
  predicate IsCanonical(config: string)
  {
    || config == Standard
    || (ConfigTokens(config) != [] && StrictlySorted(ConfigTokens(config)) && Join(ConfigTokens(config), ',') == config)
  }

  /** Writing valid tokens and reading them back gives them sorted and de-duplicated. */
  lemma CanonicalTokens(ts: seq<string>)
    requires forall t :: t in ts ==> ValidToken(t)
    ensures ConfigTokens(Canonical(ts)) == SortedSet(ts)
    ensures IsCanonical(Canonical(ts))
  {
    var sorted := SortedSet(ts);
    if sorted == [] {
      SplitWithoutSeparator(Standard, ',');
    } else {
      SplitJoin(sorted, ',');
      ValidPiecesKeepsValid(sorted);
    }
  }

  lemma {:induction false} ValidPiecesKeepsValid(ts: seq<string>)
    requires forall t :: t in ts ==> ValidToken(t)
    ensures ValidPieces(ts) == ts
    decreases |ts|
  {
    if ts != [] {
      ValidPiecesKeepsValid(ts[1..]);
      assert [ts[0]] + ts[1..] == ts;
    }
  }

  /** Canonicalising a list of valid tokens gives a canonical config holding exactly those tokens. */
  lemma CanonicalSet(next: seq<string>)
    requires forall t :: t in next ==> ValidToken(t)
    ensures TokenSet(Canonical(next)) == set t | t in next
    ensures IsCanonical(Canonical(next))
  {
    CanonicalTokens(next);
  }

  /** The token list a recognised command produces from the current tokens, before canonicalising. */
  function Applied(ts: seq<string>, cmd: Command): seq<string>
  {
    match cmd
    case Enable(f) => Without(ts, t => t == f || t == "no-" + f) + [f]
    case Disable(f) => Without(ts, t => t == f) + ["no-" + f]
    case DebugOn => ts + ["debug"]
    case DebugOff => Without(ts, t => t == "debug")
    case Size(z) => Without(ts, IsSizeToken) + ["size-" + z]
    case Unknown => ts
  }

  lemma AppliedMeaning(ts: seq<string>, cmd: Command)
    requires forall t :: t in ts ==> ValidToken(t)
    requires ValidToken(AddedToken(cmd))
    ensures forall t :: t in Applied(ts, cmd) ==> ValidToken(t)
    ensures (set t | t in Applied(ts, cmd)) == Effect((set t | t in ts), cmd)
  {
  }

  lemma MergeIsApplied(current: string, command: string)
    requires ParseCommand(command) != Unknown
    ensures MergeConfig(current, command) == Canonical(Applied(ConfigTokens(current), ParseCommand(command)))
  {
  }

  /**
   * `MergeConfig` applies the command's effect to the token set, and its
   * result is canonical, whenever the command is recognised and the token
   * it adds is a valid one.
   */
  lemma MergeConfigMeaning(current: string, command: string)
    requires ParseCommand(command) != Unknown
    requires ValidToken(AddedToken(ParseCommand(command)))
    ensures TokenSet(MergeConfig(current, command)) == Effect(TokenSet(current), ParseCommand(command))
    ensures IsCanonical(MergeConfig(current, command))
  {
    var ts := ConfigTokens(current);
    var cmd := ParseCommand(command);
    MergeIsApplied(current, command);
    AppliedMeaning(ts, cmd);
    CanonicalSet(Applied(ts, cmd));
  }

  /** The token-set half of `MergeConfigMeaning`. */
  lemma MergeConfigTokens(current: string, command: string)
    requires ParseCommand(command) != Unknown
    requires ValidToken(AddedToken(ParseCommand(command)))
    ensures TokenSet(MergeConfig(current, command)) == Effect(TokenSet(current), ParseCommand(command))
  {
    MergeConfigMeaning(current, command);
  }

  /** A canonical config that holds exactly one token is that token, spelled alone. */
  lemma SingleTokenCanonical(config: string, x: string)
    requires IsCanonical(config)
    requires TokenSet(config) == {x}
    ensures config == x
  {
    var ts := ConfigTokens(config);
    assert x in ts by { assert x in TokenSet(config); }
    if config == Standard {
      SplitWithoutSeparator(Standard, ',');
      assert false;
    }
    OnlyToken(ts, x, TokenSet(config));
  }

  /** A strictly sorted list whose every element is `x`, and which holds `x`, is `[x]`. */
  lemma OnlyToken(ts: seq<string>, x: string, tokens: set<string>)
    requires StrictlySorted(ts)
    requires x in ts
    requires tokens == {x}
    requires forall t :: t in ts ==> t in tokens
    ensures ts == [x]
  {
    if |ts| >= 2 {
      assert ts[0] in tokens && ts[1] in tokens;
      LexLessIrreflexive(x);
      assert false;
    }
    assert ts[0] in tokens;
  }

  /** An unrecognised command changes nothing. */
  lemma UnknownCommandKeepsConfig(current: string, command: string)
    requires ParseCommand(command) == Unknown
    ensures MergeConfig(current, command) == current
  {
  }
}
