/** The interface of the curvedpy library as the LUT generator uses it. The
    library's code is not part of this model: its four entry points are the
    function-valued fields of `Oracles`, about which nothing is assumed except
    where a lemma says so. Each of them may raise, which is a `Failure`. */
module External {
  import opened Geometry
  import opened Outcomes

  /** What a BlackholeGeodesicIntegrator is built with (mass, coordinate system)
      and what every `geodesic` call passes besides the ray (step bound, end radius). */
  datatype IntegratorSetup = IntegratorSetup(mass: real, coordinates: string, maxStep: real, rEnd: real)

  /** One call of `geodesic`: the integrator's setup, the initial momentum
      direction `k0` and the initial position `x0`. */
  datatype IntegratorCall = IntegratorCall(setup: IntegratorSetup, k0: Vec3, x0: Vec3)

  /** An integrated ray: the spatial momenta and positions of its points, in
      order, and the `hit_blackhole` entry of its metadata. */
  datatype Trajectory = Trajectory(momenta: seq<Vec3>, positions: seq<Vec3>, hitBlackhole: bool)

  /** The result of impact_vector: impact parameter `p`, angular quantity `l`
      and the two unit vectors `p_` and `l_` spanning the deflection plane. */
  datatype Impact = Impact(p: real, l: real, pDir: Vec3, lDir: Vec3)

  /** `construct` is the BlackholeGeodesicIntegrator constructor, given the
      mass and the coordinate system; `geodesic` integrates one ray; `angle`
      and `impact` are the library's angle and impact_vector_2. */
  datatype Oracles = Oracles(
    construct: (real, string) -> Result<(), string>,
    geodesic: IntegratorCall -> Result<Trajectory, string>,
    angle: (Vec3, Vec3) -> Result<real, string>,
    impact: (Vec3, Vec3) -> Result<Impact, string>)

  /** `angle` is an inverse cosine, so whenever it returns, its value is not negative. */
  ghost predicate UnsignedAngle(angle: (Vec3, Vec3) -> Result<real, string>) {
    forall a, b :: angle(a, b).Success? ==> 0.0 <= angle(a, b).value
  }
}
