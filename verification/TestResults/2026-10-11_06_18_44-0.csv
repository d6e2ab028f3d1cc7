TestResult.DisplayName,TestResult.Outcome,TestResult.Duration,TestResult.ResourceCount,RandomSeed
PieCharts.TypePieTotal (correctness),Passed,00:00:00.2417306,537421,1
