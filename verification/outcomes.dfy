/** Failure-carrying return values, and the ways one table generation can fail.
    The Python code raises an exception in each failure case; the model returns
    a `Failure` instead, and nothing is ever caught, so one failure ends the run. */
module Outcomes {

  datatype Option<T> = None | Some(value: T)

  datatype Result<T, E> = Success(value: T) | Failure(error: E)

  datatype Error =
    /** np.linspace refuses a negative number of samples. */
    | NegativeSampleCount(num: int)
    /** A trajectory too short for the indexing done by curve_props. */
    | IndexOutOfRange(index: int, length: nat)
    /** Building the BlackholeGeodesicIntegrator raised. */
    | ConstructionFailed(reason: string)
    /** The external geodesic integrator raised. */
    | IntegrationFailed(reason: string)
    /** The external angle function raised. */
    | AngleFailed(reason: string)
    /** The external impact-vector function raised. */
    | ImpactFailed(reason: string)
    /** A stored record whose length is not the four names it is unpacked into. */
    | UnpackMismatch(length: nat)
}
