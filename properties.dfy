/** The per-family `parseSPICEProperty` (`parseProperty` in the older copy):
    how the tokens that follow a device's node list set its parameters. */
module Properties {
  import opened Common
  import opened SpiceValue
  import opened Geometry

  /** A `double` member: never assigned yet (the independent source's value
      and the controlled source's gain are left uninitialised by their
      constructors), or holding what `getValue` read. */
  datatype Quantity = Unset | Known(v: Value)

  /** The 0 the passive constructor stores in its value and initial condition. */
  const ZeroValue: Value := Value("0", 0)

  /** The members each family of device adds to `svBaseDevice`. */
  datatype Props =
    | PassiveProps(value: Quantity, ic: Quantity, model: string)
    | TransistorProps(model: string, nChannel: bool)
    | SourceProps(value: Quantity)
    | ControlledProps(gain: Quantity, expr: string, ctrl1: string, ctrl2: string)
    | PinProps

  /** What the default constructors store. */
  function DefaultProps(k: Kind): (p: Props)
    ensures PropsFit(k, p)
  {
    match FamilyOf(k)
    case Passive => PassiveProps(Known(ZeroValue), Known(ZeroValue), "")
    case Transistor => TransistorProps("", false)
    case Independent => SourceProps(Unset)
    case Controlled => ControlledProps(Unset, "", "", "")
    case Pin => PinProps
  }

  /** The members match the device's family. */
  predicate PropsFit(k: Kind, p: Props)
  {
    match FamilyOf(k)
    case Passive => p.PassiveProps?
    case Transistor => p.TransistorProps?
    case Independent => p.SourceProps?
    case Controlled => p.ControlledProps?
    case Pin => p.PinProps?
  }

  /** `svPassiveDevice::parseSPICEProperty`: a value, else an `IC=` initial
      condition, else (first token only) the model name.  None is `false`;
      a rejected token changes nothing. */
  function ParsePassive(p: Props, j: nat, tok: string): (r: Option<Props>)
    requires p.PassiveProps?
    ensures r.Some? ==> r.value.PassiveProps?
  {
    match GetValue(tok)
    case Some(v) => Some(PassiveProps(Known(v), p.ic, p.model))
    case None =>
      var u := Upper(tok);
      if "IC=" <= u then
        match GetValue(u[3..])
        case Some(v) => Some(PassiveProps(p.value, Known(v), p.model))
        case None => None
      else if j == 0 then Some(PassiveProps(p.value, p.ic, tok))
      else None
  }

  /** `svTransistorDevice::parseSPICEProperty`: every token is the model name. */
  function ParseTransistor(p: Props, tok: string): (r: Props)
    requires p.TransistorProps?
    ensures r.TransistorProps? && r.model == tok && r.nChannel == p.nChannel
  {
    TransistorProps(tok, p.nChannel)
  }

  /** `svIndipendentSource::parseSPICEProperty`: a value, or `DC=` and a value. */
  function ParseSource(p: Props, tok: string): (r: Option<Props>)
    requires p.SourceProps?
    ensures r.Some? ==> r.value.SourceProps?
  {
    match GetValue(tok)
    case Some(v) => Some(SourceProps(Known(v)))
    case None =>
      var u := Upper(tok);
      if "DC=" <= u then
        match GetValue(u[3..])
        case Some(v) => Some(SourceProps(Known(v)))
        case None => None
      else None
  }

  /** `svVoltageControlledSource::parseSPICEProperty`. */
  function ParseControlled(p: Props, j: nat, tok: string): (r: Option<Props>)
    requires p.ControlledProps?
    ensures r.Some? ==> r.value.ControlledProps?
  {
    if p.expr != "" then Some(p)
    else
      var u := Upper(tok);
      if "VALUE" <= u then Some(p.(expr := u[5..]))
      else if j == 0 then Some(p.(ctrl1 := tok))
      else if j == 1 then Some(p.(ctrl2 := tok))
      else if j == 2 && p.ctrl1 != "" && p.ctrl2 != "" then
        match GetValue(tok)
        case Some(v) => Some(p.(gain := Known(v)))
        case None => None
      else None
  }

  /** The virtual `parseSPICEProperty`, dispatched on the device's family. */
  function ParseProperty(k: Kind, p: Props, j: nat, tok: string): (r: Option<Props>)
    requires PropsFit(k, p)
    ensures r.Some? ==> PropsFit(k, r.value)
  {
    match FamilyOf(k)
    case Passive => ParsePassive(p, j, tok)
    case Transistor => Some(ParseTransistor(p, tok))
    case Independent => ParseSource(p, tok)
    case Controlled => ParseControlled(p, j, tok)
    case Pin => if k.pin.acceptsProperties then Some(p) else None
  }

  /** The property loop of the subcircuit parser: token `i` of `toks` is
      passed with index `j + i`, and the first rejected token stops it. */
  function ParseProperties(k: Kind, p: Props, toks: seq<string>, j: nat): (r: Option<Props>)
    requires PropsFit(k, p)
    ensures r.Some? ==> PropsFit(k, r.value)
    decreases |toks|
  {
    if toks == [] then Some(p)
    else
      match ParseProperty(k, p, j, toks[0])
      case None => None
      case Some(q) => ParseProperties(k, q, toks[1..], j + 1)
  }

  // ---------------------------------------------------------------------------
  // Passive devices
  // ---------------------------------------------------------------------------

  /** Every token that starts with `IC=` (in any case) is accepted by
      `getValue` as the value 0: `I` starts no number, multiplier or unit. */
  lemma IcTokenIsAValue(tok: string)
    requires "IC=" <= Upper(tok)
    ensures GetValue(tok) == Some(Value("", 0))
  {
    assert Upper(tok)[0] == 'I';
    LetterTokenAccepted(tok);
  }

  /** The passive parser rejects a token exactly when `getValue` rejects it
      and it is not the first token; so the `IC=` branch is never reached. */
  lemma PassiveRejectsExactly(p: Props, j: nat, tok: string)
    requires p.PassiveProps?
    ensures ParsePassive(p, j, tok).None? <==> (j != 0 && GetValue(tok).None?)
  {
    if "IC=" <= Upper(tok) {
      IcTokenIsAValue(tok);
    }
  }

  /** An accepted token sets only the value, or (when `getValue` rejects it
      at index 0) only the model name; the initial condition is never set. */
  lemma PassiveSetsValueOrModel(p: Props, j: nat, tok: string)
    requires p.PassiveProps?
    requires ParsePassive(p, j, tok).Some?
    ensures var q := ParsePassive(p, j, tok).value;
      && q.ic == p.ic
      && (if GetValue(tok).Some? then q == PassiveProps(Known(GetValue(tok).value), p.ic, p.model)
          else j == 0 && q == PassiveProps(p.value, p.ic, tok))
  {
    if "IC=" <= Upper(tok) {
      IcTokenIsAValue(tok);
    }
  }

  /** Two property tokens are parsed one after the other, the second with
      the next index. */
  lemma TwoTokens(k: Kind, p: Props, t0: string, t1: string, j: nat)
    requires PropsFit(k, p)
    ensures ParseProperties(k, p, [t0, t1], j)
            == match ParseProperty(k, p, j, t0)
               case None => None
               case Some(q) => ParseProperty(k, q, j + 1, t1)
  {
    assert [t0, t1][1..] == [t1];
    assert [t1][1..] == [];
    match ParseProperty(k, p, j, t0)
    case None =>
    case Some(q) =>
      match ParseProperty(k, q, j + 1, t1)
      case None =>
      case Some(r) => assert ParseProperties(k, r, [], j + 2) == Some(r);
  }

  /** A token `getValue` accepts sets the passive value and nothing else. */
  lemma PassiveValueStep(p: Props, j: nat, tok: string, v: Value)
    requires p.PassiveProps? && GetValue(tok) == Some(v)
    ensures ParsePassive(p, j, tok) == Some(PassiveProps(Known(v), p.ic, p.model))
  {
  }

  /** `R1 1 2 10K`, whatever the number before `K`: the value is read with
      exponent 3 and the initial condition keeps its default. */
  lemma ResistorValueExample(m: string)
    requires IsNumberText(m)
    ensures ParseProperties(Resistor, DefaultProps(Resistor), [m + "K"], 0)
            == Some(PassiveProps(Known(Value(m, 3)), Known(ZeroValue), ""))
  {
    assert Upper("K") == "K" + [];
    ShortMultiplierRoundTrip(m, "K", 5, []);
    PassiveValueStep(DefaultProps(Resistor), 0, m + "K", Value(m, 3));
    assert [m + "K"][1..] == [];
  }

  /** `C1 1 0 1U IC=5`, whatever the number before `U`: the capacitance is
      read, then the initial condition is read as a second value, 0, which
      overwrites it; the initial condition keeps its default. */
  lemma IcOverwritesValue(m: string)
    requires IsNumberText(m)
    ensures ParseProperties(Capacitor, DefaultProps(Capacitor), [m + "U", "IC=5"], 0)
            == Some(PassiveProps(Known(Value("", 0)), Known(ZeroValue), ""))
  {
    MicroStep(m);
    IcStep(PassiveProps(Known(Value(m, -6)), Known(ZeroValue), ""));
    TwoTokens(Capacitor, DefaultProps(Capacitor), m + "U", "IC=5", 0);
  }

  /** The first token of `IcOverwritesValue`: a value with the micro
      multiplier. */
  lemma MicroStep(m: string)
    requires IsNumberText(m)
    ensures ParseProperty(Capacitor, DefaultProps(Capacitor), 0, m + "U")
            == Some(PassiveProps(Known(Value(m, -6)), Known(ZeroValue), ""))
  {
    assert Upper("U") == "U" + [];
    ShortMultiplierRoundTrip(m, "U", 3, []);
    PassiveValueStep(DefaultProps(Capacitor), 0, m + "U", Value(m, -6));
  }

  /** The second token of `IcOverwritesValue`: `IC=5` read as the value 0. */
  lemma IcStep(p: Props)
    requires p.PassiveProps?
    ensures ParseProperty(Capacitor, p, 1, "IC=5") == Some(PassiveProps(Known(Value("", 0)), p.ic, p.model))
  {
    assert Upper("IC=5") == "IC=5";
    IcTokenIsAValue("IC=5");
    PassiveValueStep(p, 1, "IC=5", Value("", 0));
  }

  // ---------------------------------------------------------------------------
  // Transistors
  // ---------------------------------------------------------------------------

  /** The transistor parser accepts every token list, and afterwards the model
      name is the last token (or unchanged when there is none). */
  lemma {:induction false} TransistorKeepsLastToken(k: Kind, p: Props, toks: seq<string>, j: nat)
    requires FamilyOf(k) == Transistor && p.TransistorProps?
    ensures ParseProperties(k, p, toks, j).Some?
    ensures ParseProperties(k, p, toks, j).value
            == (if toks == [] then p else TransistorProps(toks[|toks| - 1], p.nChannel))
    decreases |toks|
  {
    if toks != [] {
      var q := TransistorProps(toks[0], p.nChannel);
      TransistorKeepsLastToken(k, q, toks[1..], j + 1);
      if |toks| > 1 {
        assert toks[1..][|toks[1..]| - 1] == toks[|toks| - 1];
      }
    }
  }

  // ---------------------------------------------------------------------------
  // Independent sources
  // ---------------------------------------------------------------------------

  /** Every token that starts with `DC=` is accepted by `getValue` as 0. */
  lemma DcTokenIsAValue(tok: string)
    requires "DC=" <= Upper(tok)
    ensures GetValue(tok) == Some(Value("", 0))
  {
    assert Upper(tok)[0] == 'D';
    LetterTokenAccepted(tok);
  }

  /** The source parser rejects exactly the tokens `getValue` rejects, and an
      accepted token always sets the value to what `getValue` read. */
  lemma SourceAcceptsExactlyValues(p: Props, tok: string)
    requires p.SourceProps?
    ensures ParseSource(p, tok).None? <==> GetValue(tok).None?
    ensures GetValue(tok).Some? ==> ParseSource(p, tok) == Some(SourceProps(Known(GetValue(tok).value)))
  {
    if "DC=" <= Upper(tok) {
      DcTokenIsAValue(tok);
    }
  }

  // ---------------------------------------------------------------------------
  // Voltage-controlled sources
  // ---------------------------------------------------------------------------

  /** Once a non-empty `VALUE` expression is stored, every later token is
      accepted and ignored. */
  lemma {:induction false} ValueModeIgnoresRest(k: Kind, p: Props, toks: seq<string>, j: nat)
    requires FamilyOf(k) == Controlled && p.ControlledProps? && p.expr != ""
    ensures ParseProperties(k, p, toks, j) == Some(p)
    decreases |toks|
  {
    if toks != [] {
      ValueModeIgnoresRest(k, p, toks[1..], j + 1);
    }
  }

  /** Outside value mode, index 0 names the first control node and index 1
      the second, whatever the token; the token at index 2 is accepted,
      once both control nodes are set, exactly when it is a value, and then
      becomes the gain; a token at index 3 or later is rejected. */
  lemma ControlledGainRule(p: Props, j: nat, tok: string)
    requires p.ControlledProps? && p.expr == ""
    requires !("VALUE" <= Upper(tok))
    ensures j < 2 ==> ParseControlled(p, j, tok) == Some(if j == 0 then p.(ctrl1 := tok) else p.(ctrl2 := tok))
    ensures j == 2 && p.ctrl1 != "" && p.ctrl2 != "" ==>
              (ParseControlled(p, j, tok).None? <==> GetValue(tok).None?)
    ensures j == 2 && p.ctrl1 != "" && p.ctrl2 != "" && GetValue(tok).Some? ==>
              ParseControlled(p, j, tok) == Some(p.(gain := Known(GetValue(tok).value)))
    ensures j >= 3 ==> ParseControlled(p, j, tok).None?
    ensures ParseControlled(p, j, tok).Some? && ParseControlled(p, j, tok).value.gain != p.gain ==>
              j == 2 && p.ctrl1 != "" && p.ctrl2 != "" && ParseControlled(p, j, tok).value.gain == Known(GetValue(tok).value)
    ensures j == 2 && (p.ctrl1 == "" || p.ctrl2 == "") ==> ParseControlled(p, j, tok).None?
  {
  }

  /** `EBUFF 1 2 10 11 1.0`: control nodes 10 and 11 and a gain of 1.0. */
  lemma GainLineExample()
    ensures ParseProperties(ESource, DefaultProps(ESource), ["10", "11", "1.0"], 0)
            == Some(ControlledProps(Known(Value("1.0", 0)), "", "10", "11"))
  {
    var toks := ["10", "11", "1.0"];
    var p0 := DefaultProps(ESource);
    var p1 := p0.(ctrl1 := "10");
    var p2 := p1.(ctrl2 := "11");
    ControlNodeStep(p0, 0, "10");
    ControlNodeStep(p1, 1, "11");
    GainStep(p2);
    PeelToken(ESource, p0, toks, 0);
    assert toks[1..] == ["11", "1.0"];
    PeelToken(ESource, p1, toks[1..], 1);
    assert toks[1..][1..] == ["1.0"];
    PeelToken(ESource, p2, toks[1..][1..], 2);
    assert toks[1..][1..][1..] == [];
  }

  /** A token at index 0 or 1 that does not start with `VALUE` names a
      control node. */
  lemma ControlNodeStep(p: Props, j: nat, tok: string)
    requires p.ControlledProps? && p.expr == "" && j < 2 && |tok| < 5
    ensures ParseControlled(p, j, tok) == Some(if j == 0 then p.(ctrl1 := tok) else p.(ctrl2 := tok))
  {
    assert |Upper(tok)| < 5;
  }

  /** The third token of `GainLineExample` is the gain. */
  lemma GainStep(p: Props)
    requires p.ControlledProps? && p.expr == "" && p.ctrl1 != "" && p.ctrl2 != ""
    ensures ParseControlled(p, 2, "1.0") == Some(p.(gain := Known(Value("1.0", 0))))
  {
    NumberRoundTrip("1.0");
    assert Upper("1.0") == "1.0";
  }

  /** One token of the property loop, when it is accepted. */
  lemma PeelToken(k: Kind, p: Props, toks: seq<string>, j: nat)
    requires PropsFit(k, p) && toks != [] && ParseProperty(k, p, j, toks[0]).Some?
    ensures ParseProperties(k, p, toks, j) == ParseProperties(k, ParseProperty(k, p, j, toks[0]).value, toks[1..], j + 1)
  {
  }

  /** `GMULT 1 0 VALUE = { ... }`: a bare `VALUE` keyword stores an empty
      expression, so value mode is never entered; `=` becomes the second
      control node and the `{` at index 2 is rejected because the first
      control node is empty. */
  lemma BareValueKeywordFails()
    ensures ParseProperties(GSource, DefaultProps(GSource), ["VALUE", "=", "{", "V(3)*V(5,6)*100", "}"], 0).None?
  {
    var toks := ["VALUE", "=", "{", "V(3)*V(5,6)*100", "}"];
    var p0 := DefaultProps(GSource);
    BareKeywordStep(p0);
    EqualsStep(p0);
    BraceStep(p0.(ctrl2 := "="));
    assert toks[1..] == ["=", "{", "V(3)*V(5,6)*100", "}"];
    assert toks[1..][1..] == ["{", "V(3)*V(5,6)*100", "}"];
  }

  /** The first token of `BareValueKeywordFails`: `VALUE` alone leaves the
      expression empty. */
  lemma BareKeywordStep(p: Props)
    requires p.ControlledProps? && p.expr == ""
    ensures ParseProperty(GSource, p, 0, "VALUE") == Some(p)
  {
    CapitalKeyword();
    assert "VALUE"[5..] == "";
    ValueModeEntered(GSource, p, 0, "VALUE");
  }

  /** A token that starts with `VALUE` in any case puts an E or G source in
      value mode, with the rest of the upper-cased token as the expression. */
  lemma ValueModeEntered(k: Kind, p: Props, j: nat, tok: string)
    requires FamilyOf(k) == Controlled && p.ControlledProps? && p.expr == ""
    requires "VALUE" <= Upper(tok)
    ensures ParseProperty(k, p, j, tok) == Some(p.(expr := Upper(tok)[5..]))
  {
  }

  lemma CapitalKeyword()
    ensures Upper("VALUE") == "VALUE"
  {
    UpperOfCapitals("VALUE");
  }

  /** The second token: `=` is taken for the second control node. */
  lemma EqualsStep(p: Props)
    requires p.ControlledProps? && p.expr == ""
    ensures ParseProperty(GSource, p, 1, "=") == Some(p.(ctrl2 := "="))
  {
    assert Upper("=") == "=";
  }

  /** The third token: `{` is no gain, and the first control node is
      empty anyway. */
  lemma BraceStep(p: Props)
    requires p.ControlledProps? && p.expr == "" && p.ctrl1 == ""
    ensures ParseProperty(GSource, p, 2, "{") == None
  {
    assert Upper("{") == "{";
  }

  /** Written without a blank, `VALUE={...}` enters value mode and the rest of
      the line is ignored. */
  lemma ValueExpressionAccepted(rest: seq<string>)
    ensures ParseProperties(ESource, DefaultProps(ESource), ["VALUE={V(3)}"] + rest, 0)
            == Some(ControlledProps(Unset, "={V(3)}", "", ""))
  {
    var toks := ["VALUE={V(3)}"] + rest;
    var p0 := DefaultProps(ESource);
    var p1 := ControlledProps(Unset, "={V(3)}", "", "");
    ValueExpressionStep(p0);
    assert toks[1..] == rest;
    ValueModeIgnoresRest(ESource, p1, rest, 1);
  }

  /** The first token of `ValueExpressionAccepted`: the text after `VALUE`
      becomes the expression. */
  lemma ValueExpressionStep(p: Props)
    requires p.ControlledProps? && p.expr == ""
    ensures ParseProperty(ESource, p, 0, "VALUE={V(3)}") == Some(p.(expr := "={V(3)}"))
  {
    var tok := "VALUE={V(3)}";
    CapitalExpression();
    assert "VALUE" <= tok && tok[5..] == "={V(3)}";
    ValueModeEntered(ESource, p, 0, tok);
  }

  lemma CapitalExpression()
    ensures Upper("VALUE={V(3)}") == "VALUE={V(3)}"
  {
    UpperOfCapitals("VALUE={V(3)}");
  }
}
