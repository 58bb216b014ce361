/** The correlation selectors: the names shown for each skin friction and
    form factor equation, and the form factors that are polynomial or
    rational in the thickness or fineness ratio. A selector value outside the
    known cases is the `Other...` constructor of each datatype. */
module Correlations {
  import opened Values

  datatype TurbCfCase =
    | WhiteChristophCompressible | SchlichtingPrandtl | SchlichtingCompressible
    | SchlichtingIncompressible | SchultzGrunowSchoenherr | SchultzGrunowHighRe
    | PowerLawBlasius | PowerLawPrandtlLowRe | PowerLawPrandtlMediumRe | PowerLawPrandtlHighRe
    | ExplicitFitSpalding | ExplicitFitSpaldingChi | ExplicitFitSchoenherr
    | ImplicitSchoenherr | ImplicitKarman | ImplicitKarmanSchoenherr
    | RoughnessWhite | RoughnessSchlichtingLocal | RoughnessSchlichtingAvg
    | RoughnessSchlichtingAvgFlowCorrection | HeatTransferWhiteChristoph
    | OtherTurbCf

  datatype LamCfCase = LamBlasius | LamBlasiusHeatTransfer | OtherLamCf

  datatype WingFFCase =
    | WingManual | EdetConventional | EdetAdvanced | WingHoerner | Covert | WingShevell
    | Kroo | WingTorenbeek | Datcom | Schemensky6Series | Schemensky4Series
    | JenkinsonWing | JenkinsonTail | OtherWingFF

  datatype BodyFFCase =
    | BodyManual | SchemenskyFuselage | SchemenskyNacelle | HoernerStreamBody | BodyTorenbeek
    | BodyShevell | JenkinsonFuselage | JenkinsonWingNacelle | JenkinsonAftFuseNacelle | Jobe
    | OtherBodyFF

  // ---------------------------------------------------------------------
  // Equation names.

  /** The name of a turbulent skin friction equation, "ERROR" for an unknown selector. */
  function TurbCfEqnName(c: TurbCfCase): (name: string)
    ensures name != ""
    ensures name == "ERROR" <==> c == OtherTurbCf
  {
    match c
    case WhiteChristophCompressible => "Compressible White-Christoph"
    case SchlichtingPrandtl => "Schlichting-Prandtl"
    case SchlichtingCompressible => "Compressible Schlichting"
    case SchlichtingIncompressible => "Incompressible Schlichting"
    case SchultzGrunowSchoenherr => "Schultz-Grunow Schoenherr"
    case SchultzGrunowHighRe => "High Reynolds Number Schultz-Grunow"
    case PowerLawBlasius => "Blasius Power Law"
    case PowerLawPrandtlLowRe => "Low Reynolds Number Prandtl Power Law"
    case PowerLawPrandtlMediumRe => "Medium Reynolds Number Prandtl Power Law"
    case PowerLawPrandtlHighRe => "High Reynolds Number Prandtl Power Law"
    case ExplicitFitSpalding => "Spalding Explicit Empirical Fit"
    case ExplicitFitSpaldingChi => "Spalding-Chi Explicit Empirical Fit"
    case ExplicitFitSchoenherr => "Schoenherr Explicit Empirical Fit"
    case ImplicitSchoenherr => "Schoenherr Implicit"
    case ImplicitKarman => "Von Karman Implicit"
    case ImplicitKarmanSchoenherr => "Karman-Schoenherr Implicit"
    case RoughnessWhite => "White Roughness"
    case RoughnessSchlichtingLocal => "Schlichting Local Roughness"
    case RoughnessSchlichtingAvg => "Schlichting Avg Roughness"
    case RoughnessSchlichtingAvgFlowCorrection => "Schlichting Avg Roughness w Flow Correctioin"
    case HeatTransferWhiteChristoph => "White-Christoph w Heat Transfer"
    case OtherTurbCf => "ERROR"
  }

  /** AssignTurbCfEqnName as written: the name returned, paired with the
      stored turbulent equation name after the call. One case writes the
      stored name instead of the result and so returns the empty string. */
  function AssignTurbCfEqnNameAsWritten(c: TurbCfCase, stored: string): (res: (string, string))
    ensures c != RoughnessSchlichtingAvgFlowCorrection ==> res == (TurbCfEqnName(c), stored)
  {
    if c == RoughnessSchlichtingAvgFlowCorrection then ("", TurbCfEqnName(c))
    else (TurbCfEqnName(c), stored)
  }

  /** The caller stores the returned name, so the flow-corrected roughness
      equation is shown with an empty name; the table name went to the stored
      name instead. */
  lemma FlowCorrectionNameLost(stored: string)
    ensures var res := AssignTurbCfEqnNameAsWritten(RoughnessSchlichtingAvgFlowCorrection, stored);
      res.0 == "" && res.0 != TurbCfEqnName(RoughnessSchlichtingAvgFlowCorrection) &&
      res.1 == TurbCfEqnName(RoughnessSchlichtingAvgFlowCorrection)
  {
  }

  /** The name of a laminar skin friction equation, "ERROR" for an unknown selector. */
  function LamCfEqnName(c: LamCfCase): (name: string)
    ensures name == "ERROR" <==> c == OtherLamCf
    ensures name != ""
  {
    match c
    case LamBlasius => "Blasius"
    case LamBlasiusHeatTransfer => "Blasius w Heat Transfer"
    case OtherLamCf => "ERROR"
  }

  /** The name of a wing form factor equation, "ERROR" for an unknown selector. */
  function WingFFEqnName(c: WingFFCase): (name: string)
    ensures name != ""
    ensures name == "ERROR" <==> c == OtherWingFF
  {
    match c
    case WingManual => "Manual"
    case EdetConventional => "EDET Conventional"
    case EdetAdvanced => "EDET Advanced"
    case WingHoerner => "Hoerner"
    case Covert => "Covert"
    case WingShevell => "Shevell"
    case Kroo => "Kroo"
    case WingTorenbeek => "Torenbeek"
    case Datcom => "DATCOM"
    case Schemensky6Series => "Schemensky 6 Series AF"
    case Schemensky4Series => "Schemensky 4 Series AF"
    case JenkinsonWing => "Jenkinson Wing"
    case JenkinsonTail => "Jenkinson Tail"
    case OtherWingFF => "ERROR"
  }

  /** The name of a body form factor equation, "ERROR" for an unknown selector. */
  function BodyFFEqnName(c: BodyFFCase): (name: string)
    ensures name != ""
    ensures name == "ERROR" <==> c == OtherBodyFF
  {
    match c
    case BodyManual => "Manual"
    case SchemenskyFuselage => "Schemensky Fuselage"
    case SchemenskyNacelle => "Schemensky Nacelle"
    case HoernerStreamBody => "Hoerner Streamlined Body"
    case BodyTorenbeek => "Torenbeek"
    case BodyShevell => "Shevell"
    case JenkinsonFuselage => "Jenkinson Fuselage"
    case JenkinsonWingNacelle => "Jenkinson Wing Nacelle"
    case JenkinsonAftFuseNacelle => "Jenkinson Aft Fuse Nacelle"
    case Jobe => "Jobe"
    case OtherBodyFF => "ERROR"
  }

  // ---------------------------------------------------------------------
  // Form factors.

  /** CalcFFWing for the cases that are polynomials in the thickness ratio
      `toc`; None for the cases that need trigonometry or square roots of the
      sweep and Mach number, which this model does not evaluate. An unknown
      selector gives 0. */
  function WingFF(toc: real, c: WingFFCase): (ff: Option<real>)
    ensures ff.None? <==> c in {WingShevell, Kroo, Datcom, JenkinsonWing, JenkinsonTail}
    ensures c == OtherWingFF ==> ff == Some(0.0)
    ensures c == WingManual ==> ff == Some(1.0)
  {
    match c
    case WingManual => Some(1.0)
    case EdetConventional =>
      Some(1.0 + toc * (2.94206 + toc * (7.16974 + toc * (48.8876 +
        toc * (-1403.02 + toc * (8598.76 + toc * (-15834.3)))))))
    case EdetAdvanced => Some(1.0 + 4.275 * toc)
    case WingHoerner => Some(1.0 + 2.0 * toc + 60.0 * Pow4(toc))
    case Covert => Some(1.0 + 1.8 * toc + 50.0 * Pow4(toc))
    case WingTorenbeek => Some(1.0 + 2.7 * toc + 100.0 * Pow4(toc))
    case Schemensky6Series => Some(1.0 + 1.44 * toc + 2.0 * toc * toc)
    case Schemensky4Series => Some(1.0 + 1.68 * toc + 3.0 * toc * toc)
    case WingShevell => None
    case Kroo => None
    case Datcom => None
    case JenkinsonWing => None
    case JenkinsonTail => None
    case OtherWingFF => Some(0.0)
  }

  function Pow4(x: real): (p: real)
    ensures p >= 0.0
  {
    var s := x * x;
    s * s
  }

  /** A wing of zero thickness has form factor 1 under every polynomial equation. */
  lemma ZeroThicknessWingFF(c: WingFFCase)
    requires c != OtherWingFF && WingFF(0.0, c).Some?
    ensures WingFF(0.0, c) == Some(1.0)
  {
  }

  /** For a non-negative thickness ratio the polynomial wing form factors
      other than the EDET conventional fit are at least 1, and grow with the
      thickness ratio. */
  lemma WingFFAtLeastOne(toc: real, toc2: real, c: WingFFCase)
    requires 0.0 <= toc <= toc2
    requires c in {WingManual, EdetAdvanced, WingHoerner, Covert, WingTorenbeek, Schemensky6Series, Schemensky4Series}
    ensures WingFF(toc, c).Some? && WingFF(toc, c).value >= 1.0
    ensures WingFF(toc, c).value <= WingFF(toc2, c).value
  {
    assert toc * toc <= toc2 * toc2;
    assert Pow4(toc) <= Pow4(toc2) by {
      assert (toc * toc) * (toc * toc) <= (toc2 * toc2) * (toc * toc) <= (toc2 * toc2) * (toc2 * toc2);
    }
  }

  /** CalcFFBody for the cases that are rational in the fineness ratio `fr`
      or constant; None for the cases that need fractional powers, which this
      model does not evaluate. An unknown selector gives 0. */
  function BodyFF(fr: real, c: BodyFFCase): (ff: Option<real>)
    requires c == SchemenskyFuselage || c == SchemenskyNacelle ==> fr != 0.0
    ensures ff.None? <==> c in {HoernerStreamBody, BodyTorenbeek, BodyShevell, JenkinsonFuselage, Jobe}
    ensures c == OtherBodyFF ==> ff == Some(0.0)
    ensures c == BodyManual ==> ff == Some(1.0)
  {
    match c
    case BodyManual => Some(1.0)
    case SchemenskyFuselage => Some(1.0 + 60.0 / (fr * fr * fr) + 0.0025 * fr)
    case SchemenskyNacelle => Some(1.0 + 0.35 / fr)
    case HoernerStreamBody => None
    case BodyTorenbeek => None
    case BodyShevell => None
    case JenkinsonFuselage => None
    case JenkinsonWingNacelle => Some(1.25)
    case JenkinsonAftFuseNacelle => Some(1.5)
    case Jobe => None
    case OtherBodyFF => Some(0.0)
  }

  /** A body of positive fineness ratio has form factor above 1 under every
      rational body equation. */
  lemma BodyFFAboveOne(fr: real, c: BodyFFCase)
    requires fr > 0.0
    requires c in {SchemenskyFuselage, SchemenskyNacelle, JenkinsonWingNacelle, JenkinsonAftFuseNacelle}
    ensures BodyFF(fr, c).Some? && BodyFF(fr, c).value > 1.0
  {
    if c == SchemenskyFuselage {
      assert fr * fr * fr > 0.0;
      assert 60.0 / (fr * fr * fr) > 0.0;
    }
  }
}
