/**
 * The static catalogue of numerical methods per problem category
 * (`ALGORITHM_MAP`). The dictionary's keys are the `Key`s of the
 * `Category` values and its values their `Methods`; of its insertion
 * order only the first entry matters, which
 * `list(ALGORITHM_MAP.values())[0]` reads.
 */
module AlgorithmMap {
  import opened Wrappers

  datatype Category =
    | RootFinding | LinearSystem | Integration | Differentiation | OdeIvp | OdeBvp | Pde
    | OptimizationUnconstrained | OptimizationConstrained | Approximation | Eigen | Stochastic

  /** The dictionary key of each category. */
  function Key(c: Category): string {
    match c
    case RootFinding => "root_finding"
    case LinearSystem => "linear_system"
    case Integration => "integration"
    case Differentiation => "differentiation"
    case OdeIvp => "ode_ivp"
    case OdeBvp => "ode_bvp"
    case Pde => "pde"
    case OptimizationUnconstrained => "optimization_unconstrained"
    case OptimizationConstrained => "optimization_constrained"
    case Approximation => "approximation"
    case Eigen => "eigen"
    case Stochastic => "stochastic"
  }

  /** The methods listed for each category. */
  function Methods(c: Category): seq<string> {
    match c
    case RootFinding => ["Bisection", "Regula Falsi", "Secant", "Newton-Raphson", "Brentq", "Fixed-point", "Muller"]
    case LinearSystem => ["Gaussian Elimination", "LU", "Cholesky", "Jacobi", "Gauss-Seidel", "SOR", "Conjugate Gradient", "GMRES"]
    case Integration => ["Trapezoid", "Simpson", "Romberg", "Adaptive Quadrature", "Gaussian Quadrature", "Monte Carlo"]
    case Differentiation => ["Forward Diff", "Central Diff", "Richardson"]
    case OdeIvp => ["Euler", "RK4", "RK45", "Implicit Euler", "BDF"]
    case OdeBvp => ["Shooting", "Finite Difference", "Collocation"]
    case Pde => ["Finite Difference", "Finite Element", "Spectral Method", "Finite Volume"]
    case OptimizationUnconstrained => ["Gradient Descent", "Newton", "BFGS", "Conjugate Gradient", "Nelder-Mead"]
    case OptimizationConstrained => ["Lagrange", "SQP", "Interior Point", "Augmented Lagrangian"]
    case Approximation => ["Polynomial Interpolation", "Spline", "Chebyshev", "Least Squares"]
    case Eigen => ["Power Method", "Inverse Power", "QR", "Lanczos", "Arnoldi"]
    case Stochastic => ["Monte Carlo", "MCMC", "Importance Sampling"]
  }

  /** The first category in the dictionary's insertion order. */
  const FirstCategory: Category := RootFinding

  /** The most methods any fallback proposes (the `[:6]` slices). */
  const MaxCandidates: nat := 6

  /** `xs[:n]`. */
  function Take<T>(xs: seq<T>, n: nat): (r: seq<T>)
    ensures |r| == if |xs| < n then |xs| else n
    ensures r == xs[..|r|]
  {
    if |xs| <= n then xs else xs[..n]
  }

  /** The category whose key is `key`, if there is one. */
  function CategoryOf(key: string): (r: Option<Category>)
    ensures r.Some? ==> Key(r.value) == key
  {
    if key == Key(RootFinding) then Some(RootFinding)
    else if key == Key(LinearSystem) then Some(LinearSystem)
    else if key == Key(Integration) then Some(Integration)
    else if key == Key(Differentiation) then Some(Differentiation)
    else if key == Key(OdeIvp) then Some(OdeIvp)
    else if key == Key(OdeBvp) then Some(OdeBvp)
    else if key == Key(Pde) then Some(Pde)
    else if key == Key(OptimizationUnconstrained) then Some(OptimizationUnconstrained)
    else if key == Key(OptimizationConstrained) then Some(OptimizationConstrained)
    else if key == Key(Approximation) then Some(Approximation)
    else if key == Key(Eigen) then Some(Eigen)
    else if key == Key(Stochastic) then Some(Stochastic)
    else None
  }

  /** `ALGORITHM_MAP.get(key)`. */
  function Lookup(key: string): (r: Option<seq<string>>)
    ensures r.Some? ==> 3 <= |r.value| <= 8
  {
    match CategoryOf(key)
    case None => None
    case Some(c) => MethodCounts(c); Some(Methods(c))
  }

  /** `list(ALGORITHM_MAP.values())[0]`. */
  function FirstMethods(): seq<string> {
    Methods(FirstCategory)
  }

  /** Every category lists between 3 and 8 methods, so no lookup that finds a key yields `[]`. */
  lemma MethodCounts(c: Category)
    ensures 3 <= |Methods(c)| <= 8
    ensures |Methods(c)| > MaxCandidates <==> c == RootFinding || c == LinearSystem
  {
    match c
    case RootFinding =>
    case LinearSystem =>
    case Integration =>
    case Differentiation =>
    case OdeIvp =>
    case OdeBvp =>
    case Pde =>
    case OptimizationUnconstrained =>
    case OptimizationConstrained =>
    case Approximation =>
    case Eigen =>
    case Stochastic =>
  }

  /** Each category is found under its own key, so no two categories share a key. */
  lemma KeyFindsCategory(c: Category)
    ensures CategoryOf(Key(c)) == Some(c)
  {
    match c
    case RootFinding =>
    case LinearSystem =>
    case Integration =>
    case Differentiation =>
    case OdeIvp =>
    case OdeBvp =>
    case Pde =>
    case OptimizationUnconstrained =>
    case OptimizationConstrained =>
    case Approximation =>
    case Eigen =>
    case Stochastic =>
  }

  /** The first entry, the default of the main pipeline's lookup, is root finding's list. */
  lemma FirstIsRootFinding()
    ensures Lookup("root_finding") == Some(FirstMethods())
    ensures Take(FirstMethods(), MaxCandidates)
         == ["Bisection", "Regula Falsi", "Secant", "Newton-Raphson", "Brentq", "Fixed-point"]
  {
    KeyFindsCategory(RootFinding);
  }

  /** Only root finding (7) and linear systems (8) lose methods to the six-method cap. */
  lemma OnlyTwoListsTruncated(key: string)
    requires Lookup(key).Some?
    ensures |Lookup(key).value| > MaxCandidates <==> key == "root_finding" || key == "linear_system"
  {
    var c := CategoryOf(key).value;
    MethodCounts(c);
    KeyFindsCategory(RootFinding);
    KeyFindsCategory(LinearSystem);
  }

  /** The classifier's catch-all category `other` is not a key of the catalogue. */
  lemma OtherIsNotACategory()
    ensures Lookup("other") == None
  {
  }
}
