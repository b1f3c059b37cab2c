TestResult.DisplayName,TestResult.Outcome,TestResult.Duration,TestResult.ResourceCount,RandomSeed
Staging.DragFirstToLast (correctness),Passed,00:00:00.2444023,178365,0
Staging.DragFirstToLast (well-formedness),Passed,00:00:00.1920862,44476,0
Staging.DragFirstOfThreeToEnd (correctness),Passed,00:00:00.1071639,125014,0
