TestResult.DisplayName,TestResult.Outcome,TestResult.Duration,TestResult.ResourceCount,RandomSeed
BlockState.FromStringFormat (correctness),Passed,00:00:00.1689658,276965,3
BlockState.FromString (well-formedness),Passed,00:00:00.1300377,124589,3
BlockState.FromStringTrailingBracket (correctness),Passed,00:00:00.1274447,79526,3
BlockState.FromStringProperties (well-formedness),Passed,00:00:00.1270241,75334,3
BlockState.FromStringShape (well-formedness),Passed,00:00:00.1038567,76170,3
BlockState.FromStringOfSplit (correctness),Passed,00:00:00.0869469,100391,3
BlockState.FromStringUnfolds (well-formedness),Passed,00:00:00.0821148,77756,3
BlockState.FromStringFormat (well-formedness),Passed,00:00:00.0657222,92611,3
BlockState.FromStringProperties (correctness),Passed,00:00:00.0631675,97482,3
BlockState.FromStringOfSplit (well-formedness),Passed,00:00:00.0569877,77505,3
BlockState.FromStringUnfolds (correctness),Passed,00:00:00.0560991,84272,3
BlockState.FromStringShape (correctness),Passed,00:00:00.0488127,83895,3
