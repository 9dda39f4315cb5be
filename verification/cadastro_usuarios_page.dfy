/** src/app/cadastro-usuarios/page.tsx: the mobile-phone mask
    `(XX) XXXXX-XXXX` and the registration request the page sends. */
module CadastroUsuariosPage {
  import opened Text
  import opened Types
  import RegisterRoute

  /** The largest output of the mask, the input's `maxLength`. */
  const MaxMaskedLength: nat := 15

  /** The mask applied to a string of digits. */
  function Layout(input: string): string {
    var area := if |input| > 0 then "(" + Substring(input, 0, 2) else "";
    var prefix := if |input| > 2 then area + ") " + Substring(input, 2, 7) else area;
    if |input| > 7 then prefix + "-" + Substring(input, 7, 11) else prefix
  }

  /** `handleCelularChange`: drop every non-digit, then lay the digits out. */
  function MaskCelular(value: string): string {
    Layout(Digits(value))
  }

  /** The layout, stage by stage: `(` and up to two digits; `) ` and up to
      five more only past two digits; `-` and up to four more only past seven. */
  lemma MaskLayout(value: string)
    ensures var d := Digits(value);
            && (|d| == 0 ==> MaskCelular(value) == "")
            && (0 < |d| <= 2 ==> MaskCelular(value) == "(" + d)
            && (2 < |d| <= 7 ==> MaskCelular(value) == "(" + d[..2] + ") " + d[2..])
            && (7 < |d| ==> MaskCelular(value) == "(" + d[..2] + ") " + d[2..7] + "-" + d[7..Min(|d|, 11)])
  {
  }

  /** The mask sees only the digits of its input. */
  lemma MaskDependsOnlyOnDigits(value: string)
    ensures MaskCelular(value) == MaskCelular(Digits(value))
  {
    FilterIdempotent(value, IsDigit);
  }

  /** The mask never exceeds the field's 15 characters. */
  lemma MaskLength(value: string)
    ensures |MaskCelular(value)| <= MaxMaskedLength
  {
    MaskLayout(value);
  }

  lemma DigitsOfDigits(s: string)
    requires forall i :: 0 <= i < |s| ==> IsDigit(s[i])
    ensures Digits(s) == s
  {
  }

  /** Appending a separator without digits and then digits adds just those digits. */
  lemma AppendSeparatorAndDigits(x: string, sep: string, ds: string)
    requires Digits(sep) == ""
    requires forall i :: 0 <= i < |ds| ==> IsDigit(ds[i])
    ensures Digits(x + sep + ds) == Digits(x) + ds
  {
    DigitsAppend(x + sep, ds);
    DigitsAppend(x, sep);
    DigitsOfDigits(ds);
    assert Digits(x + sep) == Digits(x);
  }

  /** The area code: `(` and the first two digits. */
  function AreaStage(d: string): string {
    "(" + Substring(d, 0, 2)
  }

  /** After the area code: `) ` and the next five digits. */
  function PrefixStage(d: string): string {
    AreaStage(d) + ") " + Substring(d, 2, 7)
  }

  lemma AreaStageDigits(d: string)
    requires forall i :: 0 <= i < |d| ==> IsDigit(d[i])
    ensures Digits(AreaStage(d)) == d[..Min(|d|, 2)]
  {
    assert Digits("(") == "";
    AppendSeparatorAndDigits("", "(", Substring(d, 0, 2));
    assert "" + "(" + Substring(d, 0, 2) == AreaStage(d);
  }

  lemma PrefixStageDigits(d: string)
    requires |d| > 2 && forall i :: 0 <= i < |d| ==> IsDigit(d[i])
    ensures Digits(PrefixStage(d)) == d[..Min(|d|, 7)]
  {
    assert Digits(") ") == "";
    AreaStageDigits(d);
    AppendSeparatorAndDigits(AreaStage(d), ") ", Substring(d, 2, 7));
    assert d[..2] + d[2..Min(|d|, 7)] == d[..Min(|d|, 7)];
  }

  lemma SuffixStageDigits(d: string)
    requires |d| > 7 && forall i :: 0 <= i < |d| ==> IsDigit(d[i])
    ensures Digits(PrefixStage(d) + "-" + Substring(d, 7, 11)) == d[..Min(|d|, 11)]
  {
    assert Digits("-") == "";
    PrefixStageDigits(d);
    AppendSeparatorAndDigits(PrefixStage(d), "-", Substring(d, 7, 11));
    assert d[..7] + d[7..Min(|d|, 11)] == d[..Min(|d|, 11)];
  }

  /** The digits of the layout of `d` are its first `min(|d|, 11)` digits. */
  lemma LayoutKeepsFirstElevenDigits(d: string)
    requires forall i :: 0 <= i < |d| ==> IsDigit(d[i])
    ensures Digits(Layout(d)) == d[..Min(|d|, 11)]
  {
    var n := |d|;
    if n == 0 {
    } else if n <= 2 {
      assert Layout(d) == AreaStage(d);
      AreaStageDigits(d);
    } else if n <= 7 {
      assert Layout(d) == PrefixStage(d);
      PrefixStageDigits(d);
    } else {
      assert Layout(d) == PrefixStage(d) + "-" + Substring(d, 7, 11);
      SuffixStageDigits(d);
    }
  }

  /** The digits of the output are the first `min(n, 11)` digits of the input, in order. */
  lemma MaskKeepsFirstElevenDigits(value: string)
    ensures Digits(MaskCelular(value)) == Digits(value)[..Min(|Digits(value)|, 11)]
  {
    LayoutKeepsFirstElevenDigits(Digits(value));
  }

  /** Digits past the eleventh never reach the layout. */
  lemma LayoutIgnoresExtraDigits(d: string)
    ensures Layout(d[..Min(|d|, 11)]) == Layout(d)
  {
    var t := d[..Min(|d|, 11)];
    assert Substring(t, 0, 2) == Substring(d, 0, 2);
    assert Substring(t, 2, 7) == Substring(d, 2, 7);
    assert Substring(t, 7, 11) == Substring(d, 7, 11);
  }

  /** Masking a masked number gives it back unchanged. */
  lemma MaskIdempotent(value: string)
    ensures MaskCelular(MaskCelular(value)) == MaskCelular(value)
  {
    var d := Digits(value);
    MaskKeepsFirstElevenDigits(value);
    calc {
      MaskCelular(MaskCelular(value));
      Layout(Digits(MaskCelular(value)));
      Layout(d[..Min(|d|, 11)]);
      { LayoutIgnoresExtraDigits(d); }
      Layout(d);
    }
  }

  /** An eleven-digit number fills the whole pattern. */
  lemma FullNumber(value: string)
    requires |Digits(value)| >= 11
    ensures |MaskCelular(value)| == MaxMaskedLength
  {
    MaskLayout(value);
  }

  /** `handleRegister`'s body: `{nome, email, password}`.  The phone and the
      chosen profile are page state that is never sent. */
  function RegisterRequest(nome: string, email: string, password: string, celular: string, profile: Role)
    : (b: RegisterRoute.RegisterBody)
    ensures b.nome == nome && b.email == email && b.password == password
  {
    RegisterRoute.RegisterBody(nome, email, password)
  }

  lemma PhoneAndProfileNotSent(nome: string, email: string, password: string,
                               c1: string, c2: string, p1: Role, p2: Role)
    ensures RegisterRequest(nome, email, password, c1, p1) == RegisterRequest(nome, email, password, c2, p2)
  {
  }
}
