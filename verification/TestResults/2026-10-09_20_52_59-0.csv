TestResult.DisplayName,TestResult.Outcome,TestResult.Duration,TestResult.ResourceCount,RandomSeed
CommandPalette.GroupStep (correctness),Failed,00:00:11.9195837,20057980,0
CommandPalette.AddToGroupsKeepsOrder (correctness),Passed,00:00:03.7841855,10988191,0
CommandPalette.ExtendGroupStep (correctness),Passed,00:00:00.9997747,1593283,0
CommandPalette.OpenGroupStep (correctness),Passed,00:00:00.3584399,783556,0
CommandPalette.KeepMatching (well-formedness),Passed,00:00:00.2785086,83853,0
CommandPalette.KeepMatchingAppend (correctness),Passed,00:00:00.1957109,122244,0
CommandPalette.Matches (well-formedness),Passed,00:00:00.1860682,51334,0
CommandPalette.KeywordMatches (well-formedness),Passed,00:00:00.1759291,34720,0
CommandPalette.FilterIgnoresCase (correctness),Passed,00:00:00.0886460,60329,0
CommandPalette.FilterCommands (well-formedness),Passed,00:00:00.0858518,56138,0
CommandPalette.GroupIndex (well-formedness),Passed,00:00:00.0734446,47718,0
CommandPalette.AddToGroups (well-formedness),Passed,00:00:00.0673602,83003,0
CommandPalette.AddToGroupsStep (correctness),Passed,00:00:00.0657000,96196,0
CommandPalette.GroupCommands (correctness),Passed,00:00:00.0637392,167345,0
CommandPalette.FirstOf (well-formedness),Passed,00:00:00.0636976,72514,0
CommandPalette.NewCategoryFirstAt (correctness),Passed,00:00:00.0603895,95797,0
CommandPalette.InCategory (well-formedness),Passed,00:00:00.0596296,56364,0
CommandPalette.PaletteIndexInvariant (correctness),Passed,00:00:00.0487987,98322,0
CommandPalette.NewCategoryFirstAt (well-formedness),Passed,00:00:00.0471585,42937,0
CommandPalette.AddToGroupsKeepsOrder (well-formedness),Passed,00:00:00.0445737,61374,0
CommandPalette.GroupsOf (well-formedness),Passed,00:00:00.0440973,55835,0
CommandPalette.PressKey (well-formedness),Passed,00:00:00.0413277,83303,0
CommandPalette.GroupStep (well-formedness),Passed,00:00:00.0409857,63206,0
CommandPalette.PaletteIndexInvariant (well-formedness),Passed,00:00:00.0403451,91318,0
CommandPalette.ExtendGroupStep (well-formedness),Passed,00:00:00.0385738,42301,0
CommandPalette.InCategorySnoc (correctness),Passed,00:00:00.0341838,33449,0
CommandPalette.InCategoryAbsent (correctness),Passed,00:00:00.0324894,48807,0
CommandPalette.GroupedInOrder (well-formedness),Passed,00:00:00.0320027,31445,0
CommandPalette.GroupCommands (well-formedness),Passed,00:00:00.0293734,51047,0
CommandPalette.OpenGroupStep (well-formedness),Passed,00:00:00.0287555,40299,0
CommandPalette.HandleKeyDown (well-formedness),Passed,00:00:00.0264044,47929,0
CommandPalette.NavigationStaysInRange (correctness),Passed,00:00:00.0262560,43247,0
CommandPalette.NoMatchesArrowDownThenEnter (correctness),Passed,00:00:00.0214146,32730,0
CommandPalette.NavigationStaysInRange (well-formedness),Passed,00:00:00.0154012,32261,0
CommandPalette.HandleClose (well-formedness),Passed,00:00:00.0131900,10674,0
CommandPalette.SearchChanged (well-formedness),Passed,00:00:00.0105754,10712,0
