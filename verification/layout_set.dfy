/**
 A linear's resolved layout set and its canonical id, the string the reuse guard records and a later reuse run compares.
 */
module LayoutSets {
  import opened Common

  const W4A16_GROUP := 64
  const W8A16_GROUP := 128

  /** The group fields are ignored when their layout is absent, the trellis parts always (they follow from names). */
  datatype LayoutSet = LayoutSet(bf16: bool, w4a16: bool, w4a16Group: int, w8a16: bool, w8a16Group: int,
                                 trellis: bool, trellisBits: int, trellisParts: seq<int>)

  const KEPT_BF16 := LayoutSet(true, false, W4A16_GROUP, false, W8A16_GROUP, false, 0, [])

  /** The sets this converter writes. */
  predicate Writable(ls: LayoutSet) {
    && (ls.w4a16 ==> ls.w4a16Group in {32, 64})
    && (ls.w8a16 ==> ls.w8a16Group in {64, 128})
    && (ls.trellis ==> ls.trellisBits in {3, 4, 5} && !ls.bf16 && !ls.w4a16 && !ls.w8a16)
  }

  /** `ls` with every ignored field at its default. */
  function Normal(ls: LayoutSet): LayoutSet {
    LayoutSet(ls.bf16, ls.w4a16, if ls.w4a16 then ls.w4a16Group else W4A16_GROUP,
              ls.w8a16, if ls.w8a16 then ls.w8a16Group else W8A16_GROUP,
              ls.trellis, if ls.trellis then ls.trellisBits else 0, [])
  }

  // ---- decimal ------------------------------------------------------------------------------------------

  predicate IsDigit(c: char) { '0' <= c <= '9' }

  function Digit(d: int): char
    requires 0 <= d < 10
  {
    ['0', '1', '2', '3', '4', '5', '6', '7', '8', '9'][d]
  }

  /** std::to_string. */
  function ToDecimal(n: int): (s: string)
    decreases n < 0, if n < 0 then -n else n
  {
    if n < 0 then "-" + ToDecimal(-n)
    else if n < 10 then [Digit(n)]
    else ToDecimal(n / 10) + [Digit(n % 10)]
  }

  function DigitValue(c: char): (d: nat)
    requires IsDigit(c)
    ensures d < 10
  {
    c as int - '0' as int
  }

  /** std::stoi of digits. */
  function FromDigits(s: string): nat
    requires forall i :: 0 <= i < |s| ==> IsDigit(s[i])
  {
    if s == [] then 0 else 10 * FromDigits(s[..|s| - 1]) + DigitValue(s[|s| - 1])
  }

  lemma LastDigit(n: nat)
    ensures IsDigit(Digit(n % 10)) && DigitValue(Digit(n % 10)) == n % 10
  {
  }

  lemma {:induction false} DecimalDigits(n: nat)
    ensures ToDecimal(n) != [] && forall i :: 0 <= i < |ToDecimal(n)| ==> IsDigit(ToDecimal(n)[i])
    ensures FromDigits(ToDecimal(n)) == n && (ToDecimal(n)[0] == '0' <==> n == 0)
  {
    if n >= 10 {
      var s := ToDecimal(n);
      DecimalDigits(n / 10);
      LastDigit(n);
      assert s[..|s| - 1] == ToDecimal(n / 10) && s[|s| - 1] == Digit(n % 10);
    } else {
      LastDigit(n);
      assert [Digit(n)][..0] == [];
    }
  }

  // ---- id ----------------------------------------------------------------------------------------------------

  const BF16 := "bf16"
  const W4_PREFIX := "w4a16.g"
  const W8_PREFIX := "w8a16.g"
  const TRELLIS_PREFIX := "trellis.k"

  /** The tokens of the id, in their fixed order. */
  function IdTokens(ls: LayoutSet): (tokens: seq<string>) {
    (if ls.bf16 then [BF16] else [])
    + (if ls.w4a16 then [W4_PREFIX + ToDecimal(ls.w4a16Group)] else [])
    + (if ls.w8a16 then [W8_PREFIX + ToDecimal(ls.w8a16Group)] else [])
    + (if ls.trellis then [TRELLIS_PREFIX + ToDecimal(ls.trellisBits)] else [])
  }

  function Join(tokens: seq<string>): string {
    if tokens == [] then "" else if |tokens| == 1 then tokens[0] else tokens[0] + "+" + Join(tokens[1..])
  }

  function LayoutSetId(ls: LayoutSet): string {
    var tokens := IdTokens(ls);
    if tokens == [] then "none" else Join(tokens)
  }

  // ---- parsing -----------------------------------------------------------------------------------------------

  /** Index of the first '+' from `pos` on, or |s|. */
  function FindPlus(s: string, pos: nat): (i: nat)
    requires pos <= |s|
    ensures pos <= i <= |s| && (i < |s| ==> s[i] == '+') && forall k :: pos <= k < i ==> s[k] != '+'
    decreases |s| - pos
  {
    if pos == |s| || s[pos] == '+' then pos else FindPlus(s, pos + 1)
  }

  /** The pieces between '+'s; one more than there are '+'s. */
  function Split(s: string): (tokens: seq<string>)
    decreases |s|
  {
    var i := FindPlus(s, 0);
    if i == |s| then [s] else [s[..i]] + Split(s[i + 1..])
  }

  /** The digits of a group token: one to three of them. */
  function GroupOf(t: string, prefix: string): (g: Option<nat>) {
    if prefix <= t && |prefix| < |t| <= |prefix| + 3 && forall i :: |prefix| <= i < |t| ==> IsDigit(t[i]) then
      Some(FromDigits(t[|prefix|..]))
    else None
  }

  /** One token onto the set read so far, or None: not a token this build writes. */
  function AddToken(ls: LayoutSet, t: string): (r: Option<LayoutSet>) {
    if t == BF16 then Some(ls.(bf16 := true))
    else if GroupOf(t, W4_PREFIX).Some? then
      var g := GroupOf(t, W4_PREFIX).value;
      if g == 32 || g == 64 then Some(ls.(w4a16 := true, w4a16Group := g)) else None
    else if GroupOf(t, W8_PREFIX).Some? then
      var g := GroupOf(t, W8_PREFIX).value;
      if g == 64 || g == 128 then Some(ls.(w8a16 := true, w8a16Group := g)) else None
    else if t == TRELLIS_PREFIX + "3" || t == TRELLIS_PREFIX + "4" || t == TRELLIS_PREFIX + "5" then
      Some(ls.(trellis := true, trellisBits := DigitValue(t[|t| - 1])))
    else None
  }

  function AddTokens(ls: LayoutSet, tokens: seq<string>): (r: Option<LayoutSet>)
    decreases |tokens|
  {
    if tokens == [] then Some(ls)
    else match AddToken(ls, tokens[0])
      case None => None
      case Some(next) => AddTokens(next, tokens[1..])
  }

  const NO_LAYOUT := LayoutSet(false, false, W4A16_GROUP, false, W8A16_GROUP, false, 0, [])

  /** The set an id spells, if it is the canonical id of a set this converter writes. */
  function Parsed(id: string): (r: Option<LayoutSet>) {
    var read := if id == "none" then Some(NO_LAYOUT) else AddTokens(NO_LAYOUT, Split(id));
    if read.None? || LayoutSetId(read.value) != id then None
    else if read.value.trellis && (read.value.bf16 || read.value.w4a16 || read.value.w8a16) then None
    else read
  }

  lemma AddTokensCons(ls: LayoutSet, t: string, rest: seq<string>)
    ensures AddTokens(ls, [t] + rest)
            == (match AddToken(ls, t) case None => None case Some(next) => AddTokens(next, rest))
    ensures AddTokens(ls, []) == Some(ls)
  {
    assert ([t] + rest)[1..] == rest;
  }

  /** The token loop. */
  method ReadTokens(id: string) returns (r: Option<LayoutSet>)
    ensures r == AddTokens(NO_LAYOUT, Split(id))
  {
    hide AddToken, AddTokens, Split, FindPlus;
    var ls := NO_LAYOUT;
    var pos := 0;
    assert id[0..] == id;
    while true
      invariant 0 <= pos <= |id|
      invariant AddTokens(NO_LAYOUT, Split(id)) == AddTokens(ls, Split(id[pos..]))
      decreases |id| - pos
    {
      var plus := FindPlus(id, pos);
      SplitFrom(id, pos);
      AddTokensCons(ls, id[pos..plus], if plus == |id| then [] else Split(id[plus + 1..]));
      assert plus == |id| ==> [id[pos..plus]] + [] == [id[pos..plus]];
      var next := AddToken(ls, id[pos..plus]);
      if next.None? {
        return None;
      }
      ls := next.value;
      if plus == |id| {
        AddTokensCons(ls, "", []);
        return Some(ls);
      }
      pos := plus + 1;
    }
  }

  method ParseLayoutSetId(id: string) returns (r: Option<LayoutSet>)
    ensures r == Parsed(id)
  {
    hide AddTokens, Split, LayoutSetId;
    var ls := NO_LAYOUT;
    if id != "none" {
      var read := ReadTokens(id);
      if read.None? {
        return None;
      }
      ls := read.value;
    }
    if LayoutSetId(ls) != id {
      return None;
    }
    if ls.trellis && (ls.bf16 || ls.w4a16 || ls.w8a16) {
      return None;
    }
    return Some(ls);
  }

  lemma {:induction false} FindPlusFrom(s: string, pos: nat, k: nat)
    requires pos + k <= |s|
    ensures FindPlus(s[pos..], k) + pos == FindPlus(s, pos + k)
    decreases |s| - pos - k
  {
    if pos + k < |s| && s[pos + k] != '+' { FindPlusFrom(s, pos, k + 1); }
  }

  lemma SplitFrom(s: string, pos: nat)
    requires pos <= |s|
    ensures var plus := FindPlus(s, pos);
            Split(s[pos..]) == if plus == |s| then [s[pos..plus]] else [s[pos..plus]] + Split(s[plus + 1..])
  {
    FindPlusFrom(s, pos, 0);
    var plus, u := FindPlus(s, pos), s[pos..];
    assert FindPlus(u, 0) == plus - pos;
    assert u[..plus - pos] == s[pos..plus];
    if plus < |s| {
      assert u[plus - pos + 1..] == s[plus + 1..];
    } else {
      assert u == s[pos..plus];
    }
  }

  // ---- round trip --------------------------------------------------------------------------------------------

  predicate NoPlus(t: string) { forall i :: 0 <= i < |t| ==> t[i] != '+' }

  lemma FindPlusAt(s: string, i: nat)
    requires i <= |s| && (forall k :: 0 <= k < i ==> s[k] != '+') && (i < |s| ==> s[i] == '+')
    ensures FindPlus(s, 0) == i
  {
  }

  lemma {:induction false} SplitJoin(tokens: seq<string>)
    requires tokens != [] && forall i :: 0 <= i < |tokens| ==> NoPlus(tokens[i])
    ensures Split(Join(tokens)) == tokens
  {
    var s := Join(tokens);
    if |tokens| == 1 {
      FindPlusAt(s, |s|);
    } else {
      var rest := Join(tokens[1..]);
      assert s == tokens[0] + "+" + rest;
      assert s[..|tokens[0]|] == tokens[0] && s[|tokens[0]| + 1..] == rest;
      forall k | 0 <= k < |tokens[0]| ensures s[k] != '+' {
        assert NoPlus(tokens[0]) && s[k] == tokens[0][k];
      }
      FindPlusAt(s, |tokens[0]|);
      SplitJoin(tokens[1..]);
    }
  }

  /** A group token reads back as its group. */
  lemma GroupToken(prefix: string, g: nat)
    requires |ToDecimal(g)| <= 3
    ensures GroupOf(prefix + ToDecimal(g), prefix) == Some(g)
  {
    DecimalDigits(g);
    var t := prefix + ToDecimal(g);
    assert t[..|prefix|] == prefix && t[|prefix|..] == ToDecimal(g);
    forall i | |prefix| <= i < |t| ensures IsDigit(t[i]) { assert t[i] == ToDecimal(g)[i - |prefix|]; }
  }

  lemma Decimals()
    ensures ToDecimal(32) == "32" && ToDecimal(64) == "64" && ToDecimal(128) == "128"
    ensures ToDecimal(3) == "3" && ToDecimal(4) == "4" && ToDecimal(5) == "5"
  {
    assert ToDecimal(12) == ToDecimal(1) + "2";
  }

  lemma W4Token(ls: LayoutSet, g: nat)
    requires g == 32 || g == 64
    ensures AddToken(ls, W4_PREFIX + ToDecimal(g)) == Some(ls.(w4a16 := true, w4a16Group := g))
    ensures NoPlus(W4_PREFIX + ToDecimal(g))
  {
    Decimals();
    GroupToken(W4_PREFIX, g);
    assert (W4_PREFIX + ToDecimal(g))[0] == 'w';
  }

  lemma W8Token(ls: LayoutSet, g: nat)
    requires g == 64 || g == 128
    ensures AddToken(ls, W8_PREFIX + ToDecimal(g)) == Some(ls.(w8a16 := true, w8a16Group := g))
    ensures NoPlus(W8_PREFIX + ToDecimal(g))
  {
    Decimals();
    GroupToken(W8_PREFIX, g);
    assert (W8_PREFIX + ToDecimal(g))[0] == 'w' && (W8_PREFIX + ToDecimal(g))[1] == '8';
    assert W4_PREFIX[1] == '4';
  }

  lemma TrellisToken(ls: LayoutSet, bits: nat)
    requires bits in {3, 4, 5}
    ensures AddToken(ls, TRELLIS_PREFIX + ToDecimal(bits)) == Some(ls.(trellis := true, trellisBits := bits))
    ensures NoPlus(TRELLIS_PREFIX + ToDecimal(bits))
  {
    Decimals();
    assert (TRELLIS_PREFIX + ToDecimal(bits))[0] == 't';
    assert W4_PREFIX[0] == 'w' && W8_PREFIX[0] == 'w';
  }

  lemma {:induction false} AddAppend(ls: LayoutSet, a: seq<string>, b: seq<string>)
    requires AddTokens(ls, a).Some?
    ensures AddTokens(ls, a + b) == AddTokens(AddTokens(ls, a).value, b)
    decreases |a|
  {
    if a == [] {
      assert a + b == b;
    } else {
      assert (a + b)[1..] == a[1..] + b;
      AddAppend(AddToken(ls, a[0]).value, a[1..], b);
    }
  }

  lemma AddOne(ls: LayoutSet, t: string)
    ensures AddTokens(ls, [t]) == AddToken(ls, t)
  {
    assert [t][1..] == [];
  }

  lemma TokensRead(ls: LayoutSet)
    requires Writable(ls)
    ensures AddTokens(NO_LAYOUT, IdTokens(ls)) == Some(Normal(ls))
    ensures forall i :: 0 <= i < |IdTokens(ls)| ==> NoPlus(IdTokens(ls)[i])
  {
    hide AddToken, ToDecimal, NoPlus;
    var t1 := if ls.bf16 then [BF16] else [];
    var t2 := if ls.w4a16 then [W4_PREFIX + ToDecimal(ls.w4a16Group)] else [];
    var t3 := if ls.w8a16 then [W8_PREFIX + ToDecimal(ls.w8a16Group)] else [];
    var t4 := if ls.trellis then [TRELLIS_PREFIX + ToDecimal(ls.trellisBits)] else [];
    var s1 := NO_LAYOUT.(bf16 := ls.bf16);
    var s2 := if ls.w4a16 then s1.(w4a16 := true, w4a16Group := ls.w4a16Group) else s1;
    var s3 := if ls.w8a16 then s2.(w8a16 := true, w8a16Group := ls.w8a16Group) else s2;
    BfToken(NO_LAYOUT);
    if ls.bf16 { AddOne(NO_LAYOUT, BF16); }
    if ls.w4a16 { W4Token(s1, ls.w4a16Group); AddOne(s1, t2[0]); }
    if ls.w8a16 { W8Token(s2, ls.w8a16Group); AddOne(s2, t3[0]); }
    if ls.trellis { TrellisToken(s3, ls.trellisBits); AddOne(s3, t4[0]); }
    AddAppend(NO_LAYOUT, t1, t2);
    AddAppend(NO_LAYOUT, t1 + t2, t3);
    AddAppend(NO_LAYOUT, t1 + t2 + t3, t4);
    assert IdTokens(ls) == t1 + t2 + t3 + t4;
  }

  lemma BfToken(ls: LayoutSet)
    ensures AddToken(ls, BF16) == Some(ls.(bf16 := true)) && NoPlus(BF16)
  {
  }

  lemma NormalSameId(ls: LayoutSet)
    ensures LayoutSetId(Normal(ls)) == LayoutSetId(ls)
  {
  }

  /** Every id of a set the converter writes parses back to that set, up to the fields it ignores. */
  lemma RoundTrip(ls: LayoutSet)
    requires Writable(ls)
    ensures Parsed(LayoutSetId(ls)) == Some(Normal(ls))
  {
    hide AddTokens, Split, Join;
    TokensRead(ls);
    NormalSameId(ls);
    if IdTokens(ls) != [] {
      SplitJoin(IdTokens(ls));
      NotNone(ls);
    } else {
      NoTokens();
    }
  }

  lemma NoTokens()
    ensures AddTokens(NO_LAYOUT, []) == Some(NO_LAYOUT)
  {
  }

  /** "none" is no other set's id. */
  lemma NotNone(ls: LayoutSet)
    requires IdTokens(ls) != []
    ensures Join(IdTokens(ls)) != "none"
  {
    var t := IdTokens(ls);
    assert t[0] <= Join(t);
    assert t[0][0] in {'b', 'w', 't'};
    assert Join(t)[0] == t[0][0];
  }

  /** What parses is exactly the canonical ids of the writable sets; a set that is not writable has no id that parses to
      it. */
  lemma ParsesExactly(id: string)
    ensures Parsed(id).Some? <==> exists ls :: Writable(ls) && LayoutSetId(ls) == id
    ensures Parsed(id).Some? ==> Writable(Parsed(id).value) && LayoutSetId(Parsed(id).value) == id
                                 && Normal(Parsed(id).value) == Parsed(id).value
  {
    if Parsed(id).Some? {
      NormalFromTokens(NO_LAYOUT, if id == "none" then [] else Split(id));
    }
    if ls :| Writable(ls) && LayoutSetId(ls) == id {
      RoundTrip(ls);
    }
  }

  /** Whatever the tokens, what they build has supported groups and bits and default ignored fields. */
  ghost predicate Built(ls: LayoutSet) {
    && Normal(ls) == ls
    && (ls.w4a16 ==> ls.w4a16Group in {32, 64})
    && (ls.w8a16 ==> ls.w8a16Group in {64, 128})
    && (ls.trellis ==> ls.trellisBits in {3, 4, 5})
  }

  lemma {:induction false} NormalFromTokens(ls: LayoutSet, tokens: seq<string>)
    requires Built(ls) && AddTokens(ls, tokens).Some?
    ensures Built(AddTokens(ls, tokens).value)
    decreases |tokens|
  {
    if tokens != [] {
      OneBuilt(ls, tokens[0]);
      NormalFromTokens(AddToken(ls, tokens[0]).value, tokens[1..]);
    }
  }

  lemma OneBuilt(ls: LayoutSet, t: string)
    requires Built(ls) && AddToken(ls, t).Some?
    ensures Built(AddToken(ls, t).value)
  {
    hide GroupOf;
  }

  /** The id tells two writable sets apart exactly when they differ in a field that is not ignored. */
  lemma IdInjective(a: LayoutSet, b: LayoutSet)
    requires Writable(a) && Writable(b)
    ensures LayoutSetId(a) == LayoutSetId(b) <==> Normal(a) == Normal(b)
  {
    RoundTrip(a);
    RoundTrip(b);
    NormalSameId(a);
    NormalSameId(b);
  }

  /** The tensor names a linear's layouts are written under. */
  function LinearTensorNames(base: string, ls: LayoutSet): (names: seq<string>) {
    (if ls.bf16 then [base + ".bf16.w"] else [])
    + (if ls.w4a16 then
         [base + ".w4a16.wq",
          if ls.w4a16Group == W4A16_GROUP then base + ".w4a16.wsz" else base + ".w4a16.wsz.g" + ToDecimal(ls.w4a16Group)]
       else [])
    + (if ls.w8a16 then [base + ".w8a16.wq", base + ".w8a16.ws"] else [])
    + (if ls.trellis then [base + ".trellis.w", base + ".trellis.suh", base + ".trellis.svh"] else [])
  }

  lemma NamesFollowId(base: string, a: LayoutSet, b: LayoutSet)
    requires Writable(a) && Writable(b) && LayoutSetId(a) == LayoutSetId(b)
    ensures LinearTensorNames(base, a) == LinearTensorNames(base, b)
  {
    IdInjective(a, b);
    assert forall x: LayoutSet :: LinearTensorNames(base, Normal(x)) == LinearTensorNames(base, x);
  }

  /** The ids and names as other programs look for them. */
  lemma IdsSpelled(ls: LayoutSet)
    ensures !ls.bf16 && !ls.w4a16 && !ls.w8a16 && !ls.trellis <==> IdTokens(ls) == []
    ensures IdTokens(ls) == [] ==> LayoutSetId(ls) == "none"
    ensures LayoutSetId(ls.(bf16 := true, w4a16 := false, w8a16 := false, trellis := false)) == "bf16"
    ensures LayoutSetId(ls.(bf16 := false, w4a16 := true, w4a16Group := 64, w8a16 := false, trellis := false)) == "w4a16.g" + "64"
    ensures LayoutSetId(ls.(bf16 := false, w4a16 := false, w8a16 := true, w8a16Group := 128, trellis := false)) == "w8a16.g" + "128"
    ensures LayoutSetId(ls.(bf16 := false, w4a16 := false, w8a16 := false, trellis := true, trellisBits := 4)) == "trellis.k" + "4"
    ensures LayoutSetId(ls.(bf16 := true, w4a16 := true, w4a16Group := 32, w8a16 := false, trellis := false))
            == "bf16" + "+" + ("w4a16.g" + "32")
  {
    Printed();
    hide ToDecimal;
    JoinTwo("bf16", "w4a16.g" + "32");
    assert IdTokens(ls.(bf16 := true, w4a16 := true, w4a16Group := 32, w8a16 := false, trellis := false))
           == ["bf16", "w4a16.g" + "32"];
  }

  lemma JoinTwo(a: string, b: string)
    ensures Join([a, b]) == a + "+" + b && Join([a]) == a
  {
    assert [a, b][1..] == [b];
  }

  lemma Printed()
    ensures ToDecimal(64) == "64" && ToDecimal(32) == "32" && ToDecimal(128) == "128" && ToDecimal(4) == "4"
  {
    assert ToDecimal(1) == "1" && ToDecimal(12) == "12";
  }

  lemma NamesSpelled(base: string, n: int)
    ensures LinearTensorNames(base, LayoutSet(true, false, n, false, n, false, n, [])) == [base + ".bf16.w"]
    ensures LinearTensorNames(base, LayoutSet(false, true, 64, false, n, false, n, [])) == [base + ".w4a16.wq", base + ".w4a16.wsz"]
    ensures n != 64 ==> LinearTensorNames(base, LayoutSet(false, true, n, false, n, false, n, []))
                        == [base + ".w4a16.wq", base + ".w4a16.wsz.g" + ToDecimal(n)]
    ensures LinearTensorNames(base, LayoutSet(false, false, n, true, n, false, n, [])) == [base + ".w8a16.wq", base + ".w8a16.ws"]
    ensures LinearTensorNames(base, LayoutSet(false, false, n, false, n, true, n, []))
            == [base + ".trellis.w", base + ".trellis.suh", base + ".trellis.svh"]
  {
    hide ToDecimal;
  }
}
