/** The built-in category list the store starts with (lib/data/categories.ts). */
module Categories {
  import opened Types

  const Defaults: seq<Category> := [
    Category("1", "Programming Languages", "Code", "#3b82f6", "Learn new programming languages and syntax"),
    Category("2", "Web Development", "Globe", "#10b981", "Frontend, backend, and full-stack web technologies"),
    Category("3", "Mobile Development", "Smartphone", "#8b5cf6", "iOS, Android, and cross-platform development"),
    Category("4", "Data Science & AI", "Brain", "#f59e0b", "Machine learning, data analysis, and AI technologies"),
    Category("5", "Cloud & DevOps", "Cloud", "#06b6d4", "Cloud platforms, CI/CD, and infrastructure"),
    Category("6", "Design", "Palette", "#ec4899", "UI/UX design, graphic design, and visual arts"),
    Category("7", "Database", "Database", "#14b8a6", "SQL, NoSQL, and database management"),
    Category("8", "Security", "Shield", "#ef4444", "Cybersecurity, encryption, and secure coding"),
    Category("9", "Tools & Frameworks", "Wrench", "#6366f1", "Development tools, libraries, and frameworks"),
    Category("10", "Soft Skills", "Users", "#84cc16", "Communication, leadership, and teamwork")
  ]

  /** The ten built-in categories have distinct ids. */
  lemma DefaultsDistinctIds()
    ensures |Defaults| == 10
    ensures forall i, j :: 0 <= i < j < |Defaults| ==> Defaults[i].id != Defaults[j].id
  {
  }
}
