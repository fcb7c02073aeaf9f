/** The parameter sets of section 4 of FIPS 204, as internal/mldsa/mldsa.go writes them. */
module Parameters {
  /** k, l, eta; log2 of gamma1; the denominator of gamma2; lambda, tau, omega. */
  datatype Params = Params(k: nat, l: nat, eta: nat, gamma1: nat, gamma2: nat, lambda: nat, tau: nat, omega: nat)

  const PARAMS44: Params := Params(4, 4, 2, 17, 88, 128, 39, 80)
  const PARAMS65: Params := Params(6, 5, 4, 19, 32, 192, 49, 55)
  const PARAMS87: Params := Params(8, 7, 2, 19, 32, 256, 60, 75)

  /** What the algorithms need of a parameter set; k, l and lambda are free. */
  predicate Sound(p: Params)
  {
    && (p.gamma1 == 17 || p.gamma1 == 19)
    && (p.gamma2 == 32 || p.gamma2 == 88)
    && (p.eta == 2 || p.eta == 4)
    && p.tau <= 64 && p.omega < 256
  }

  /** The three parameter sets of the program are sound. */
  lemma ParameterSetsSound()
    ensures Sound(PARAMS44) && Sound(PARAMS65) && Sound(PARAMS87)
  {
  }
}
