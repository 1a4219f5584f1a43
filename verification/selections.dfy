/** The choices a user makes on the page: the comfort model, the chart and
    the functionality (single input, two inputs side by side, or ranges).
    The application compares the stored names of these choices; each name
    the code tests for is a constructor here, and every other stored name is
    the catch-all constructor. */
module Selections {

  /** The comfort model (`Models`). */
  datatype Model =
    | PmvEn            // PMV under EN 16798 / ISO 7730
    | PmvAshrae        // PMV under ASHRAE 55
    | AdaptiveEn       // adaptive comfort under EN 16798
    | AdaptiveAshrae   // adaptive comfort under ASHRAE 55
    | OtherModel       // any other model name

  /** The chart (`Charts`). */
  datatype Chart =
    | TRh               // temperature against relative humidity
    | ThlPsychrometric  // heat losses
    | SetOutputs        // SET and body temperatures
    | WindTemp          // air speed against temperature
    | AdaptiveEnChart
    | AdaptiveAshraeChart
    | Psychrometric     // humidity ratio against temperature
    | OtherChart        // any other chart name

  /** The functionality (`Functionalities`). */
  datatype Functionality = Default | Compare | Ranges | OtherFunctionality

  /** The models evaluated with the PMV index. */
  predicate IsPmv(m: Model) {
    m == PmvEn || m == PmvAshrae
  }
}
