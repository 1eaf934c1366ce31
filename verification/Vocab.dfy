/** The token vocabulary of the factor language; a token is what the lexer makes of its text. */
module Vocab {
  import opened Wrappers

  datatype Feature =
    | Open | High | Low | Close | Volume | Amount | Turnover | Vwap | Ret
    | EventHeat | ThemeSentiment | BullishClaims | BearishClaims | VerifiedCatalysts | VerifiedRisks
    | ContentAttention | AuthorAttention | CrossVideoConsensus | CrossVideoDisagreement

  datatype TsOp = TsMean | TsStd | TsMax | TsMin | TsDelta | TsDelay | TsRank | TsSum | DecayLinear
                | TsArgmax | TsArgmin | CountPositive
  datatype TsPairOp = TsCorr | TsCov
  datatype CsOp = CsRank | CsZscore | CsDemean
  datatype UnaryOp = Neg | Abs | Log | Sqrt | Sign | SignedPower
  datatype BinaryOp = Add | Sub | Mul | Div | Gt | Lt | Max | Min

  /** `Other` is any text outside the vocabulary, future-looking names such as `lead` among them. */
  datatype Token =
    | Feat(feature: Feature)
    | Ts(ts: TsOp, window: nat)
    | TsPair(pair: TsPairOp, window: nat)
    | Cs(cs: CsOp)
    | Unary(unary: UnaryOp)
    | Binary(binary: BinaryOp)
    | Where
    | Other(text: string)

  const TS_WINDOWS: set<nat> := {3, 4, 5, 8, 10, 15, 20, 30, 60, 120}

  const MAX_FORMULA_TOKENS: nat := 16

  /** `is_valid_token` */
  predicate IsValidToken(token: Token) {
    match token
    case Ts(_, window) => window in TS_WINDOWS
    case TsPair(_, window) => window in TS_WINDOWS
    case Other(_) => false
    case _ => true
  }

  /** The arity that `get_op` gives an operator; None for features and unknown tokens. */
  function Arity(token: Token): Option<nat> {
    match token
    case Ts(_, window) => if window in TS_WINDOWS then Some(1) else None
    case TsPair(_, window) => if window in TS_WINDOWS then Some(2) else None
    case Cs(_) => Some(1)
    case Unary(_) => Some(1)
    case Binary(_) => Some(2)
    case Where => Some(3)
    case Feat(_) => None
    case Other(_) => None
  }

  /** How many earlier days a time-series operator reaches back. */
  function Reach(token: Token): nat {
    match token
    case Ts(op, window) => if op.TsDelay? || op.TsDelta? then window else if window > 0 then window - 1 else 0
    case TsPair(_, window) => if window > 0 then window - 1 else 0
    case _ => 0
  }
}
